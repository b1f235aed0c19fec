/**
 * The token store: reading the session token out of the page's cookie
 * string (`getToken`), the cookie text the page writes for a token, and the
 * "token cleared" effect of the page's cookie filter.
 */
module Cookie {
  import opened Strings

  datatype Option<T> = None | Some(value: T)

  /** The name every token lookup and write uses. */
  const TokenName: string := "token"

  /** Segment `i` is the first of `segments` that starts with `prefix`. */
  ghost predicate FirstWithPrefix(segments: seq<string>, prefix: string, i: int) {
    && 0 <= i < |segments|
    && StartsWith(segments[i], prefix)
    && forall j :: 0 <= j < i ==> !StartsWith(segments[j], prefix)
  }

  /** `segments.find((c) => c.startsWith(prefix))`, as the index of the segment found. */
  function FindFirst(segments: seq<string>, prefix: string): (r: Option<nat>)
    ensures r.None? <==> forall i :: 0 <= i < |segments| ==> !StartsWith(segments[i], prefix)
    ensures r.Some? ==> FirstWithPrefix(segments, prefix, r.value)
    decreases |segments|
  {
    if segments == [] then None
    else if StartsWith(segments[0], prefix) then Some(0)
    else
      match FindFirst(segments[1..], prefix)
      case None =>
        assert forall i :: 1 <= i < |segments| ==> segments[i] == segments[1..][i - 1];
        None
      case Some(k) =>
        assert forall j :: 1 <= j < k + 1 ==> segments[j] == segments[1..][j - 1];
        Some(k + 1)
  }

  /** The cookie string split on `;`; nothing is trimmed. */
  function Segments(cookie: string): seq<string> {
    Split(cookie, ';')
  }

  /**
   * `getToken()`: the first `;`-separated segment that starts with `token`,
   * split on `=`, and the part at index 1 of that split; absent when no
   * segment starts with `token` or when that segment holds no `=`.
   */
  function GetToken(cookie: string): (r: Option<string>)
    ensures r.Some? ==> ';' !in r.value && '=' !in r.value
  {
    var segments := Segments(cookie);
    match FindFirst(segments, TokenName)
    case None => None
    case Some(i) =>
      var parts := Split(segments[i], '=');
      if |parts| >= 2 then
        assert ';' !in parts[1] by {
          if ';' in parts[1] { InJoin(parts, '=', 1, ';'); }
        }
        Some(parts[1])
      else None
  }

  /** `!token` is false: a token was found and it is not the empty string. */
  predicate HasToken(token: Option<string>) {
    token.Some? && token.value != ""
  }

  /** `segment` is `pre=v` followed by nothing or by a further `=`, with no `=` in `pre` or `v`. */
  ghost predicate SegmentShape(segment: string, pre: string, v: string, post: string) {
    && segment == pre + ['='] + v + post
    && '=' !in pre && '=' !in v
    && (post == [] || post[0] == '=')
  }

  /** `v` is what `split('=')[1]` gives on `segment`: the text between its first and second `=`. */
  ghost predicate ValueIn(segment: string, v: string) {
    exists pre, post :: SegmentShape(segment, pre, v, post)
  }

  /** When `split('=')` gives at least two parts, the part at index 1 is the value of the segment. */
  lemma TwoParts(segment: string)
    requires |Split(segment, '=')| >= 2
    ensures ValueIn(segment, Split(segment, '=')[1])
  {
    var parts := Split(segment, '=');
    var pre, v := parts[0], parts[1];
    var post := if |parts| == 2 then [] else ['='] + Join(parts[2..], '=');
    assert Join(parts[1..], '=') == v + post by {
      assert parts[1..][1..] == parts[2..];
    }
    assert SegmentShape(segment, pre, v, post);
  }

  /** A segment shaped `pre=v...` splits with `v` at index 1. */
  lemma SplitAtValue(segment: string, pre: string, v: string, post: string)
    requires SegmentShape(segment, pre, v, post)
    ensures |Split(segment, '=')| >= 2 && Split(segment, '=')[1] == v
  {
    assert segment == pre + ['='] + (v + post);
    SplitPrefix(pre, '=', v + post);
    SplitHead(v, '=', post);
  }

  /**
   * What `getToken` returns, in terms of the cookie text: present exactly when
   * the first segment starting with `token` holds a `=`, and then the text
   * between that segment's first and second `=`.
   */
  lemma {:induction false} GetTokenSpec(cookie: string)
    ensures GetToken(cookie).Some? <==>
      exists i :: FirstWithPrefix(Segments(cookie), TokenName, i) && '=' in Segments(cookie)[i]
    ensures GetToken(cookie).None? <==>
      || (forall i :: 0 <= i < |Segments(cookie)| ==> !StartsWith(Segments(cookie)[i], TokenName))
      || (exists i :: FirstWithPrefix(Segments(cookie), TokenName, i) && '=' !in Segments(cookie)[i])
    ensures forall i, v :: (FirstWithPrefix(Segments(cookie), TokenName, i) && ValueIn(Segments(cookie)[i], v)
      ==> GetToken(cookie) == Some(v))
    ensures GetToken(cookie).Some? ==>
      exists i :: FirstWithPrefix(Segments(cookie), TokenName, i) && ValueIn(Segments(cookie)[i], GetToken(cookie).value)
  {
    var segments := Segments(cookie);
    forall i, j | FirstWithPrefix(segments, TokenName, i) && FirstWithPrefix(segments, TokenName, j)
      ensures i == j
    {
    }
    match FindFirst(segments, TokenName)
    case None =>
    case Some(i) =>
      var parts := Split(segments[i], '=');
      if |parts| >= 2 {
        TwoParts(segments[i]);
        assert '=' in segments[i];
      } else {
        assert segments[i] == Join(parts, '=') == parts[0];
      }
      forall v | ValueIn(segments[i], v) ensures GetToken(cookie) == Some(v) {
        var pre, post :| SegmentShape(segments[i], pre, v, post);
        SplitAtValue(segments[i], pre, v, post);
      }
  }

  /** The cookie the page reads back after writing `token=<value>`. */
  function TokenCookie(value: string): string {
    TokenName + ['='] + value
  }

  /** The stored value is read back when it holds neither `;` nor `=`. */
  lemma TokenCookieRoundTrip(value: string)
    requires ';' !in value && '=' !in value
    ensures GetToken(TokenCookie(value)) == Some(value)
  {
    var c := TokenCookie(value);
    assert ';' !in c by {
      assert forall k :: 0 <= k < |c| ==> c[k] == (if k < 6 then "token="[k] else value[k - 6]);
    }
    SplitNoSep(c, ';');
    assert Segments(c) == [c];
    assert StartsWith(c, TokenName) by { assert c[..5] == TokenName; }
    assert c == TokenName + ['='] + value + [];
    SplitAtValue(c, TokenName, value, []);
  }

  /** After `logOut` writes `token=`, `getToken` yields the empty string, which is falsy. */
  lemma EmptyTokenCookie()
    ensures GetToken(TokenCookie("")) == Some("")
    ensures !HasToken(GetToken(TokenCookie("")))
  {
    TokenCookieRoundTrip("");
  }

  /** An empty cookie string holds no token. */
  lemma EmptyCookie()
    ensures GetToken("") == None
  {
    assert Segments("") == [""];
    assert !StartsWith("", TokenName);
  }

  /**
   * Segments are not trimmed: a `token` entry that follows another cookie
   * after the browser's `"; "` separator starts with a space and is not found.
   */
  lemma NoTrimming(before: string, value: string)
    requires ';' !in before && ';' !in value
    requires !StartsWith(before, TokenName)
    ensures GetToken(before + "; token=" + value) == None
  {
    var second := " token=" + value;
    assert before + "; token=" + value == before + [';'] + second;
    assert ';' !in second by {
      assert forall k :: 0 <= k < |second| ==> second[k] == (if k < 7 then " token="[k] else value[k - 7]);
    }
    SplitPrefix(before, ';', second);
    SplitNoSep(second, ';');
    assert Segments(before + "; token=" + value) == [before, second];
    assert second[0] != TokenName[0];
  }

  /** The segments that survive `filter((c) => !c.startsWith('token'))`. */
  function NonTokenSegments(segments: seq<string>): (r: seq<string>)
    ensures forall i :: 0 <= i < |r| ==> !StartsWith(r[i], TokenName)
    ensures forall i :: 0 <= i < |r| ==> r[i] in segments
    ensures forall s :: s in segments && !StartsWith(s, TokenName) ==> s in r
    decreases |segments|
  {
    if segments == [] then []
    else
      var rest := NonTokenSegments(segments[1..]);
      if StartsWith(segments[0], TokenName) then rest else [segments[0]] + rest
  }

  /**
   * The filter keeps order and repeats: it works segment by segment, so the
   * kept segments of two lists put together are the kept segments of the
   * first followed by those of the second, and a single segment is kept
   * exactly when it does not start with `token`.
   */
  lemma {:induction false} NonTokenSegmentsAppend(a: seq<string>, b: seq<string>)
    ensures NonTokenSegments(a + b) == NonTokenSegments(a) + NonTokenSegments(b)
    ensures forall s: string :: NonTokenSegments([s]) == if StartsWith(s, TokenName) then [] else [s]
    decreases |a|
  {
    assert forall s: string :: [s][1..] == [];
    if a == [] {
      assert a + b == b;
    } else {
      var tail := a[1..] + b;
      assert (a + b)[0] == a[0] && (a + b)[1..] == tail by {
        assert a + b == [a[0]] + tail;
      }
      NonTokenSegmentsAppend(a[1..], b);
    }
  }

  /**
   * The "token cleared" effect of the page's cookie filter: the segments that
   * do not start with `token`, joined back with `;`. Afterwards no token is
   * found, and whenever any segment survives, the surviving segments are read
   * back unchanged.
   */
  function StripToken(cookie: string): (r: string)
    ensures GetToken(r) == None
    ensures NonTokenSegments(Segments(cookie)) != [] ==> Segments(r) == NonTokenSegments(Segments(cookie))
  {
    var kept := NonTokenSegments(Segments(cookie));
    var r := Join(kept, ';');
    if kept == [] then
      EmptyCookie();
      r
    else
      assert forall i :: 0 <= i < |kept| ==> ';' !in kept[i];
      SplitJoin(kept, ';');
      r
  }
}
