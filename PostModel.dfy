/** The post record: its tag list stored as one comma-joined string, the range
    check on popularity, and its serialised form. */
module PostModel {
  import opened Wrappers
  import opened Strings
  import opened Sorting

  /** A user, of whom the post only ever looks at the id. */
  datatype User = User(id: int)

  /** The dictionary `serialize` returns; `authorIds` is present only on request. */
  datatype Serialized = Serialized(
    id: int,
    text: string,
    likes: int,
    readCount: int,
    popularity: real,
    tags: seq<string>,
    authorIds: Option<seq<int>>)

  /** The message of the `ValueError` an out-of-range popularity raises. */
  const PopularityMessage: string := "Popularity should be between 0 and 1"

  /** The popularity validator: the value itself when it lies in [0.0, 1.0],
      bounds included; otherwise the error, and nothing is stored. */
  function ValidatePopularity(p: real): (r: Result<real, string>)
    ensures r.Success? <==> 0.0 <= p <= 1.0
    ensures r.Success? ==> r.value == p
    ensures r.Failure? ==> r.error == PopularityMessage
  {
    if p > 1.0 || p < 0.0 then Failure(PopularityMessage) else Success(p)
  }

  /** The ids of a list of users, in the same order. */
  function UserIds(users: seq<User>): seq<int> {
    seq(|users|, i requires 0 <= i < |users| => users[i].id)
  }

  class Post {
    var id: int
    var text: string
    var likes: int
    var readCount: int
    var popularity: real
    /** The `tags` column: the tag list joined with commas. */
    var rawTags: string
    /** The users related to the post through the authorship table, in the
        order the relationship yields them. */
    var users: seq<User>

    /** The popularity bound every stored value keeps. */
    predicate Valid()
      reads this
    {
      0.0 <= popularity <= 1.0
    }

    /** A new post with the column defaults: no likes, no reads, popularity 0.0. */
    constructor (id: int, text: string, tags: seq<string>)
      ensures Valid()
      ensures this.id == id && this.text == text
      ensures likes == 0 && readCount == 0 && popularity == 0.0
      ensures rawTags == Join(tags, ',') && users == []
    {
      this.id := id;
      this.text := text;
      likes, readCount, popularity := 0, 0, 0.0;
      rawTags := Join(tags, ',');
      users := [];
    }

    /** The `tags` property: the stored string split at every comma. It is never
        empty, has one more element than the string has commas, and joins back
        to the stored string. */
    function Tags(): (r: seq<string>)
      reads this
      ensures |r| == Count(rawTags, ',') + 1
      ensures Join(r, ',') == rawTags
    {
      JoinSplit(rawTags, ',');
      Split(rawTags, ',')
    }

    /** The `tags` setter: stores the list joined with commas. A non-empty list
        without commas in its tags reads back unchanged; an empty one reads back
        as one empty tag. */
    method SetTags(tags: seq<string>)
      modifies this`rawTags
      ensures rawTags == Join(tags, ',')
      ensures |tags| > 0 && FreeOf(tags, ',') ==> Tags() == tags
      ensures |tags| == 0 ==> Tags() == [""]
    {
      rawTags := Join(tags, ',');
      if |tags| > 0 && FreeOf(tags, ',') {
        SplitJoin(tags, ',');
      }
    }

    /** Assigning `popularity` runs the validator first: an accepted value is
        stored, a rejected one leaves the post as it was. */
    method SetPopularity(p: real) returns (r: Result<real, string>)
      modifies this`popularity
      ensures r == ValidatePopularity(p)
      ensures popularity == if r.Success? then p else old(popularity)
      ensures old(Valid()) ==> Valid()
    {
      r := ValidatePopularity(p);
      if r.Success? {
        popularity := r.value;
      }
    }

    /** `serialize(withUsers)`: the fields copied unchanged, the tags as a list,
        and, only when asked, the ids of the post's users in ascending order. */
    method Serialize(withUsers: bool) returns (s: Serialized)
      ensures s.id == id && s.text == text && s.likes == likes && s.readCount == readCount
      ensures s.popularity == popularity && s.tags == Tags()
      ensures Valid() ==> 0.0 <= s.popularity <= 1.0
      ensures s.authorIds.Some? <==> withUsers
      ensures withUsers ==> SortedAsc(s.authorIds.value)
      ensures withUsers ==> multiset(s.authorIds.value) == multiset(UserIds(users))
    {
      var authorIds: Option<seq<int>> := None;
      if withUsers {
        var userIds: seq<int> := [];
        for i := 0 to |users|
          invariant |userIds| == i
          invariant forall k :: 0 <= k < i ==> userIds[k] == users[k].id
        {
          userIds := userIds + [users[i].id];
        }
        assert userIds == UserIds(users);
        authorIds := Some(SortAsc(userIds));
      }
      s := Serialized(id, text, likes, readCount, popularity, Tags(), authorIds);
    }
  }

  /** There is no escaping: a tag holding a comma reads back as two tags. */
  lemma CommaInTagSplitsIt()
    ensures Split(Join(["a,b"], ','), ',') == ["a", "b"]
  {
    SplitJoin(["a", "b"], ',');
    assert Join(["a", "b"], ',') == "a,b";
  }

  /** Two posts whose relationships yield the same users in different orders
      serialise the same author list. */
  lemma AuthorIdsIgnoreRelationshipOrder(a: seq<User>, b: seq<User>, sa: seq<int>, sb: seq<int>)
    requires multiset(a) == multiset(b)
    requires SortedAsc(sa) && multiset(sa) == multiset(UserIds(a))
    requires SortedAsc(sb) && multiset(sb) == multiset(UserIds(b))
    ensures sa == sb
  {
    UserIdsPermute(a, b);
    SortedPermutationUnique(sa, sb);
  }

  lemma UserIdsAppend(x: seq<User>, y: seq<User>)
    ensures UserIds(x + y) == UserIds(x) + UserIds(y)
  {
  }

  lemma {:induction false} UserIdsPermute(a: seq<User>, b: seq<User>)
    requires multiset(a) == multiset(b)
    ensures multiset(UserIds(a)) == multiset(UserIds(b))
    decreases |a|
  {
    if |a| > 0 {
      var u := a[0];
      assert u in multiset(b);
      var k :| 0 <= k < |b| && b[k] == u;
      var front, back := b[..k], b[k + 1..];
      assert b == front + [u] + back;
      assert a == [u] + a[1..];
      assert multiset(a[1..]) == multiset(front + back) by {
        assert multiset(a[1..]) == multiset(a) - multiset{u};
        assert multiset(front + back) == multiset(b) - multiset{u};
      }
      UserIdsPermute(a[1..], front + back);
      UserIdsAppend([u], a[1..]);
      UserIdsAppend(front + [u], back);
      UserIdsAppend(front, [u]);
      UserIdsAppend(front, back);
    }
  }
}
