/** The input gates of the posts endpoints: what `POST /posts` accepts before it
    builds a post, and the validation chain of `GET /posts` over its three query
    arguments. The first failing check decides the response. */
module PostsApi {
  import opened Wrappers
  import opened Strings
  import opened IntLiteral

  /** The accepted values of `sortBy`, in the order the error message lists them. */
  const ValidSorts: seq<string> := ["id", "reads", "likes", "popularity"]

  /** The accepted values of `direction`. */
  const ValidDirections: seq<string> := ["asc", "desc"]

  datatype SortKey = ById | ByReads | ByLikes | ByPopularity {
    /** The query-string spelling of the key. */
    function Name(): (s: string)
      ensures s in ValidSorts
    {
      match this
      case ById => "id"
      case ByReads => "reads"
      case ByLikes => "likes"
      case ByPopularity => "popularity"
    }
  }

  datatype Direction = Asc | Desc {
    /** The query-string spelling of the direction. */
    function Name(): (s: string)
      ensures s in ValidDirections
    {
      match this
      case Asc => "asc"
      case Desc => "desc"
    }
  }

  /** `sortBy not in VALID_SORTS` decides rejection; the key named by an accepted value. */
  function ParseSortKey(s: string): (r: Option<SortKey>)
    ensures r.Some? <==> s in ValidSorts
    ensures r.Some? ==> r.value.Name() == s
  {
    if s == "id" then Some(ById)
    else if s == "reads" then Some(ByReads)
    else if s == "likes" then Some(ByLikes)
    else if s == "popularity" then Some(ByPopularity)
    else None
  }

  /** `direction not in ["asc","desc"]` decides rejection; the direction named by an accepted value. */
  function ParseDirection(s: string): (r: Option<Direction>)
    ensures r.Some? <==> s in ValidDirections
    ensures r.Some? ==> r.value.Name() == s
  {
    if s == "asc" then Some(Asc)
    else if s == "desc" then Some(Desc)
    else None
  }

  /** Every way the handlers refuse a request. */
  datatype ApiError =
    | Unauthorized        // no authenticated user: `abort(401)`
    | MissingText         // create without `text`
    | MissingAuthorIds    // list without `authorIds`
    | EmptyAuthorIds      // list with `authorIds=` (empty)
    | MalformedAuthorIds  // some comma-separated piece is not an integer
    | InvalidSortBy
    | InvalidDirection
  {
    /** The HTTP status of the response. */
    function Status(): (code: int)
      ensures code == 401 || code == 400
      ensures code == 401 <==> Unauthorized?
    {
      if Unauthorized? then 401 else 400
    }

    /** The `error` field of the JSON body; `abort(401)` sends no JSON body. */
    function Message(): (m: Option<string>)
      ensures m.None? <==> Unauthorized?
    {
      match this
      case Unauthorized => None
      case MissingText => Some("Must provide text for the new post")
      case MissingAuthorIds => Some("Must specify at least 1 author Id as a positive integer.")
      case EmptyAuthorIds => Some("Must provide at least one authorId to search for.")
      case MalformedAuthorIds =>
        Some("All ids passed must be a positive integer. Integers must be separated by a comma. [,]")
      case InvalidSortBy =>
        // the message formats the Python list, hence its repr with single quotes
        Some("Invalid sortBy passed. Must be one of ['id', 'reads', 'likes', 'popularity']")
      case InvalidDirection => Some("Invalid sort order specified. Must be one of [\"asc\",\"desc\"]")
    }
  }

  // ---------------------------------------------------------------- create

  /** The values the new post is built from: `text`, and `tags` only when forwarded. */
  datatype NewPost = NewPost(text: string, tags: Option<seq<string>>)

  /** The checks `POST /posts` makes before building the post. A missing `text`
      is refused (an empty one is not); `tags` is forwarded only when it is a
      non-empty list, which is when Python finds it truthy. */
  function CheckCreateRequest(authenticated: bool, text: Option<string>, tags: Option<seq<string>>)
    : (r: Result<NewPost, ApiError>)
    ensures !authenticated ==> r == Failure(Unauthorized)
    ensures authenticated && text.None? ==> r == Failure(MissingText)
    ensures r.Success? <==> authenticated && text.Some?
    ensures r.Success? ==> r.value.text == text.value
    ensures r.Success? ==> (r.value.tags.Some? <==> tags.Some? && |tags.value| > 0)
    ensures r.Success? && r.value.tags.Some? ==> r.value.tags == tags
  {
    if !authenticated then Failure(Unauthorized)
    else if text.None? then Failure(MissingText)
    else if tags.Some? && |tags.value| > 0 then Success(NewPost(text.value, tags))
    else Success(NewPost(text.value, None))
  }

  // ---------------------------------------------------------------- list

  /** A validated list query. */
  datatype ListQuery = ListQuery(authorIds: seq<int>, sortBy: SortKey, direction: Direction)

  /** `[int(x) for x in segments]`: all values, or `None` when some piece raises. */
  function ParseAll(segments: seq<string>): (r: Option<seq<int>>)
    ensures r.Some? <==> forall i :: 0 <= i < |segments| ==> IsLiteral(segments[i])
    ensures r.Some? ==> |r.value| == |segments|
    ensures r.Some? ==> forall i :: 0 <= i < |segments| ==> ParseInt(segments[i]) == Some(r.value[i])
  {
    if |segments| == 0 then Some([])
    else
      match ParseInt(segments[0])
      case None => None
      case Some(v) =>
        match ParseAll(segments[1..])
        case None =>
          assert forall i :: 1 <= i < |segments| ==> segments[i] == segments[1..][i - 1];
          None
        case Some(vs) => Some([v] + vs)
  }

  /** The `authorIds` argument the chain lets through: present, not empty, and
      every comma-separated piece an integer literal. */
  predicate IdsAccepted(authorIds: Option<string>) {
    authorIds.Some? && authorIds.value != "" &&
    var pieces := Split(authorIds.value, ',');
    forall i :: 0 <= i < |pieces| ==> IsLiteral(pieces[i])
  }

  /** An absent `sortBy` defaults to "id"; a present one must be listed. */
  predicate SortByAccepted(sortBy: Option<string>) {
    sortBy.None? || sortBy.value in ValidSorts
  }

  /** An absent `direction` defaults to "asc"; a present one must be listed. */
  predicate DirectionAccepted(direction: Option<string>) {
    direction.None? || direction.value in ValidDirections
  }

  /** The validation chain of `GET /posts`: authentication, then `authorIds`
      (present, non-empty, integers), then `sortBy`, then `direction`. */
  function CheckListRequest(authenticated: bool, authorIds: Option<string>,
                            sortBy: Option<string>, direction: Option<string>)
    : (r: Result<ListQuery, ApiError>)
    // error precedence: each check is reached only when the earlier ones passed
    ensures !authenticated ==> r == Failure(Unauthorized)
    ensures authenticated && authorIds.None? ==> r == Failure(MissingAuthorIds)
    ensures authenticated && authorIds == Some("") ==> r == Failure(EmptyAuthorIds)
    ensures authenticated && authorIds.Some? && authorIds.value != "" && !IdsAccepted(authorIds)
            ==> r == Failure(MalformedAuthorIds)
    ensures authenticated && IdsAccepted(authorIds) && !SortByAccepted(sortBy)
            ==> r == Failure(InvalidSortBy)
    ensures authenticated && IdsAccepted(authorIds) && SortByAccepted(sortBy) && !DirectionAccepted(direction)
            ==> r == Failure(InvalidDirection)
    // success exactly when every argument is acceptable
    ensures r.Success? <==>
            authenticated && IdsAccepted(authorIds) && SortByAccepted(sortBy) && DirectionAccepted(direction)
    // one id per comma-separated piece, in order; absent arguments take their defaults
    ensures r.Success? ==> |r.value.authorIds| == Count(authorIds.value, ',') + 1
    ensures r.Success? ==> forall i :: 0 <= i < |r.value.authorIds| ==>
              ParseInt(Split(authorIds.value, ',')[i]) == Some(r.value.authorIds[i])
    ensures r.Success? ==> r.value.sortBy.Name() == sortBy.GetOr("id")
    ensures r.Success? ==> r.value.direction.Name() == direction.GetOr("asc")
  {
    if !authenticated then Failure(Unauthorized)
    else if authorIds.None? then Failure(MissingAuthorIds)
    else if |authorIds.value| == 0 then Failure(EmptyAuthorIds)
    else
      match ParseAll(Split(authorIds.value, ','))
      case None => Failure(MalformedAuthorIds)
      case Some(ids) =>
        match ParseSortKey(sortBy.GetOr("id"))
        case None => Failure(InvalidSortBy)
        case Some(key) =>
          match ParseDirection(direction.GetOr("asc"))
          case None => Failure(InvalidDirection)
          case Some(dir) => Success(ListQuery(ids, key, dir))
  }

  /** The query string a client writes for a list of ids: `str` of each, joined by commas. */
  function FormatIds(ids: seq<int>): (s: string)
  {
    Join(seq(|ids|, i requires 0 <= i < |ids| => FormatInt(ids[i])), ',')
  }

  /** Any non-empty list of integers, written out as the query string expects, is
      accepted and read back as the same list; absent `sortBy` and `direction`
      take their defaults. */
  lemma IdsRoundTrip(ids: seq<int>)
    requires |ids| > 0
    ensures CheckListRequest(true, Some(FormatIds(ids)), None, None) == Success(ListQuery(ids, ById, Asc))
  {
    var pieces := seq(|ids|, i requires 0 <= i < |ids| => FormatInt(ids[i]));
    SplitJoin(pieces, ',');
    assert FormatIds(ids) != "" by {
      assert FormatIds(ids) == "" ==> Split(FormatIds(ids), ',') == [""];
      assert pieces[0] != "";
    }
    forall i | 0 <= i < |ids| ensures ParseInt(pieces[i]) == Some(ids[i]) {
      ParseFormat(ids[i]);
    }
    var r := CheckListRequest(true, Some(FormatIds(ids)), None, None);
    assert r.Success?;
    assert r.value.authorIds == ids;
  }

  /** The chain accepts negative ids and zero, although its messages ask for
      positive integers. */
  lemma NonPositiveIdsAccepted()
    ensures CheckListRequest(true, Some("-3,0"), None, None) == Success(ListQuery([-3, 0], ById, Asc))
  {
    SplitJoin(["-3", "0"], ',');
    assert Join(["-3", "0"], ',') == "-3,0";
    assert DigitsValue("3") == 3 by { assert ("3")[..0] == ""; }
    assert DigitsValue("0") == 0 by { assert ("0")[..0] == ""; }
    assert ParseInt("-3") == Some(-3) by { assert ("-3")[1..] == "3"; }
    assert ParseInt("0") == Some(0);
    var pieces := ["-3", "0"];
    assert ParseInt(pieces[0]) == Some(-3) && ParseInt(pieces[1]) == Some(0);
    var ids := ParseAll(pieces);
    assert ids.Some? && ids.value == [-3, 0];
  }

  /** A trailing comma or two commas in a row leave an empty piece, which is not an integer. */
  lemma EmptyPieceRejected()
    ensures CheckListRequest(true, Some("1,"), None, None) == Failure(MalformedAuthorIds)
    ensures CheckListRequest(true, Some("1,,2"), None, None) == Failure(MalformedAuthorIds)
  {
  }

  /** A name is not an integer. */
  lemma NameRejected()
    ensures CheckListRequest(true, Some("fred"), Some("id"), Some("asc")) == Failure(MalformedAuthorIds)
  {
  }

  /** Blank `sortBy` and `direction` are rejected, not replaced by their defaults. */
  lemma BlankSortAndDirectionRejected()
    ensures CheckListRequest(true, Some("2"), Some(""), Some("asc")) == Failure(InvalidSortBy)
    ensures CheckListRequest(true, Some("2"), Some("id"), Some("")) == Failure(InvalidDirection)
  {
  }
}
