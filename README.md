# Posts backend: request gates and the post record

A Dafny model of two small pieces of a blogging backend written in Python
(Flask and SQLAlchemy):

- the input gates of the posts endpoints (`api/posts.py`): what `POST /posts`
  requires before it builds a post, and the validation chain of `GET /posts`
  over its three query arguments `authorIds`, `sortBy` and `direction`, where the
  first failing check decides the response;
- the value logic of the `Post` record (`db/models/post.py`): the tag list kept
  in one comma-joined column, the popularity range validator, and `serialize`,
  which copies the fields and, on request, adds the ids of the post's users in
  ascending order.

Files:

- `Wrappers.dfy`: `Option` (an absent request argument) and `Result` (a refusal).
- `Strings.dfy`: Python's `str.split(",")` and `",".join(...)` and their round trips.
- `IntLiteral.dfy`: Python's `int(x)` on strings, as an optional sign followed by
  one or more decimal digits, with `str(n)` as its inverse.
- `Sorting.dfy`: Python's `sorted` on integers, as the unique ascending permutation.
- `PostsApi.dfy`: `CheckCreateRequest` and `CheckListRequest`, with the error kinds,
  their HTTP status and their fixed messages.
- `PostModel.dfy`: the class `Post` with its fields, the `Tags()` getter, the
  `SetTags` and `SetPopularity` setters, and the `Serialize` method.

Modelling choices:

- The authenticated user is reduced to a boolean `authenticated`; its absence
  gives `Unauthorized` (status 401) before any argument is looked at.
- `int()` accepts an optional `+` or `-` and ASCII digits. Python also accepts
  surrounding whitespace, `_` between digits and other Unicode digits; the model
  rejects those.
- The chain accepts negative ids and zero, although its messages ask for
  positive integers (`NonPositiveIdsAccepted`).
- Blank `sortBy` or `direction` values are refused, not replaced by the defaults.
  Only an absent argument takes the default (`BlankSortAndDirectionRejected`).
  Some fixtures in tests/my_tests/pytests/test_posts_mt.py expect the defaults
  instead; the model follows the handler code.
- The `sortBy` error message formats the Python list, so it reads
  `['id', 'reads', 'likes', 'popularity']` with single quotes. The fixtures
  expect a JSON-style list; the model follows the code.
- `POST /posts` refuses only a missing `text`; an empty `text` is accepted.
  `tags` is forwarded only when it is a non-empty list (Python truthiness).
- The `_tags` column is the field `rawTags`, and the `reads` column is `readCount`,
  since `reads` is a Dafny keyword. Popularity is a `real`; only comparisons are used.
- The post's users are a sequence of `User(id)` values, in the order the
  relationship yields them. Duplicates are allowed, so permutation is stated
  with multisets.

## Model

| member | source | states |
|---|---|---|
| `PostsApi.CheckCreateRequest` | api/posts.py:17-30 | no user gives 401 first; a missing `text` gives the "Must provide text for the new post" error; otherwise success with `text` unchanged, and `tags` forwarded exactly when it is a non-empty list |
| `PostsApi.CheckListRequest` | api/posts.py:56-92 | error precedence: 401, then missing `authorIds`, then empty `authorIds`, then a non-integer piece, then `sortBy`, then `direction`; success exactly when all are acceptable; on success one id per comma-separated piece (commas + 1), in order, and absent `sortBy`/`direction` read as "id"/"asc" |
| `PostsApi.ParseAll` | api/posts.py:71-74 | the list comprehension of `int` succeeds exactly when every piece is an integer literal, and then yields one value per piece, each the piece's value |
| `PostsApi.ParseSortKey` | api/posts.py:79-83 | a `sortBy` value is accepted exactly when it is one of `VALID_SORTS`, and the key found is the one it names |
| `PostsApi.ParseDirection` | api/posts.py:88-92 | a `direction` value is accepted exactly when it is "asc" or "desc", and the direction found is the one it names |
| `PostsApi.ApiError.Status` | api/posts.py:18-25 | only the missing user gives 401; every other refusal is a 400 |
| `PostsApi.ApiError.Message` | api/posts.py:66-92 | every 400 refusal carries a JSON error message; the 401 abort carries none |
| `PostsApi.IdsRoundTrip` | api/posts.py:66-92 | every non-empty list of integers written as comma-separated literals is accepted and read back as the same list, with the default sort key and direction |
| `PostsApi.NonPositiveIdsAccepted` | api/posts.py:71-74 | "-3,0" is accepted as the ids [-3, 0] despite the message's "positive integer" |
| `PostsApi.EmptyPieceRejected` | api/posts.py:71-74 | "1," and "1,,2" leave an empty piece and are refused as malformed |
| `PostsApi.NameRejected` | api/posts.py:71-74 | "fred" is refused as malformed |
| `PostsApi.BlankSortAndDirectionRejected` | api/posts.py:79-92 | a blank `sortBy` gives the sortBy error and a blank `direction` the direction error; neither falls back to its default |
| `IntLiteral.ParseInt` | api/posts.py:72 | `int(x)` succeeds exactly on an optional sign followed by at least one decimal digit |
| `IntLiteral.ParseFormat` | api/posts.py:72 | every integer written by `str` parses back to itself |
| `Strings.Split` | db/models/post.py:22 | the pieces of `split(",")` never contain a comma, and there is one more piece than the string has commas |
| `Strings.JoinCount` | db/models/post.py:26 | joining n > 0 comma-free tags puts exactly n - 1 commas in the stored string |
| `Strings.JoinSplit` | db/models/post.py:22-26 | joining the pieces of any stored string gives back that string |
| `Strings.SplitJoin` | db/models/post.py:21-26 | a non-empty tag list whose tags hold no comma is read back unchanged, in order |
| `Strings.EmptyJoinReadsBackOneEmptyPiece` | db/models/post.py:22-26 | an empty tag list is stored as "" and reads back as one empty tag |
| `PostModel.CommaInTagSplitsIt` | db/models/post.py:22-26 | a tag holding a comma reads back as two tags |
| `PostModel.ValidatePopularity` | db/models/post.py:28-32 | for every non-NaN value: the value is returned unchanged exactly when 0.0 <= p <= 1.0, bounds included; otherwise the fixed error message |
| `PostModel.Post.constructor` | db/models/post.py:8-16 | a new post has no likes, no reads, popularity 0.0 (inside the bound), no users, and its tags stored comma-joined |
| `PostModel.Post.Tags` | db/models/post.py:20-22 | the getter returns commas + 1 tags, never an empty list, and they join back to the stored column |
| `PostModel.Post.SetTags` | db/models/post.py:24-26 | the setter stores the comma-joined list and changes nothing else; a non-empty comma-free list reads back unchanged, an empty list reads back as one empty tag |
| `PostModel.Post.SetPopularity` | db/models/post.py:28-32 | for every non-NaN value: assignment stores the value only when the validator accepts it; otherwise popularity is unchanged; the bound is preserved |
| `PostModel.Post.Serialize` | db/models/post.py:34-53 | id, text, likes, reads, popularity and tags copied unchanged; `authorIds` present exactly when requested, then ascending and a permutation of the users' ids; a post within the popularity bound serialises a popularity within it |
| `PostModel.AuthorIdsIgnoreRelationshipOrder` | db/models/post.py:48-51 | the serialised author list does not depend on the order the relationship yields the users |
| `Sorting.SortAsc` | db/models/post.py:51 | `sorted` returns an ascending permutation of its input |
| `Sorting.SortedPermutationUnique` | db/models/post.py:51 | two ascending sequences with the same elements are equal |
| `Sorting.SortAscOrderIndependent` | db/models/post.py:51 | `sorted` depends only on the elements of its input, not on their order |

## Left out

- Persistence: `db.session.add` and `commit` (api/posts.py:33-38), the column
  declarations, the `users` relationship and the query helpers
  `get_posts_by_user_id` and `get_post_by_post_id` (db/models/post.py:73-80) are
  calls into SQLAlchemy. The creator's authorship row is not modelled.
- When `tags` is not forwarded, the post is built without a value for the
  non-nullable `tags` column, which has no default; what the store then does is
  not modelled. The model's constructor always takes a tag list.
- Flask: `request`, `jsonify`, `abort`, `Response`, the `auth_required`
  decorator and route registration. The JSON body of `POST /posts` is taken as
  already parsed, with `text` a string and `tags` a list of strings when present.
- `get_posts` returns an empty 200 response after validation (api/posts.py:96),
  so the author filtering and sorting of the results are not modelled; neither is
  `update_posts`, whose body is empty (api/posts.py:98-101).
- The debug `print` calls, `__str__` and the empty `serialize_with_users` property.
- Floating-point behaviour of popularity beyond the two comparisons.
- PostModel.ValidatePopularity: a `real` has no NaN. Both comparisons are false for a
  Python float NaN, so the source validator accepts NaN and returns it unchanged.
- PostModel.Post.SetPopularity: the source stores a NaN popularity, which breaks the
  0.0 to 1.0 bound; the model's bound holds only because `real` has no NaN.
- `IntLiteral.ParseInt`: does not accept surrounding whitespace, `_` separators or
  non-ASCII digits, which Python's `int()` does.
