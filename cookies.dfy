/** The `Cookie` header reader that lib/supabase/middleware.ts hands to the
    Supabase client: split on ";", then each trimmed segment at its first
    "=". This is the simple form of the cookie-string parsing of section
    5.4 of RFC 6265: no quoting and no decoding. */
module Cookies {
  import opened Wrappers
  import opened Text

  datatype Cookie = Cookie(name: string, value: string)

  /** One segment: `const [name, ...v] = c.trim().split("=")` and
      `value: v.join("=").trim()`. */
  function ParseSegment(segment: string): Cookie
  {
    var parts := Split(Trim(segment), '=');
    Cookie(parts[0], Trim(Join(parts[1..], "=")))
  }

  /** The name is the trimmed segment up to its first "=", and the value
      everything after that "=" (later "=" included), trimmed; a segment
      without "=" is all name and has the empty value. */
  lemma SegmentFields(segment: string)
    ensures var t := Trim(segment);
            var c := ParseSegment(segment);
            if '=' in t then
              c.name == t[..IndexOf(t, '=')] && c.value == Trim(t[IndexOf(t, '=') + 1..])
            else
              c.name == t && c.value == ""
  {
    var t := Trim(segment);
    if '=' in t {
      var i := IndexOf(t, '=');
      var post := t[i + 1..];
      assert t == t[..i] + ['='] + post;
      SplitAfterFirst(t[..i], '=', post);
      JoinSplit(post, '=');
      assert Split(t, '=')[1..] == Split(post, '=');
    } else {
      SplitJoin([t], '=');
      assert Join([t], "=") == t;
      assert Split(t, '=')[1..] == [];
    }
  }

  /** Every "=" after the first belongs to the value: `name=a=b` reads as
      name `name` and value `a=b`. */
  lemma ValueKeepsEquals(name: string, value: string)
    requires '=' !in name && |name| > 0 && !IsSpace(name[0])
    requires |value| > 0 && !IsSpace(value[0]) && !IsSpace(value[|value| - 1])
    ensures ParseSegment(name + "=" + value) == Cookie(name, value)
  {
    var t := name + "=" + value;
    assert t[0] == name[0] && t[|t| - 1] == value[|value| - 1];
    NoSpaceAtEnds(t);
    SplitAfterFirst(name, '=', value);
    JoinSplit(value, '=');
    NoSpaceAtEnds(value);
  }

  /** A string with no white space at either end is its own trim. */
  lemma NoSpaceAtEnds(s: string)
    requires |s| > 0 && !IsSpace(s[0]) && !IsSpace(s[|s| - 1])
    ensures Trim(s) == s
  {
    assert LeadingSpace(s) == 0;
    assert TrailingSpace(s) == 0;
    assert s[0..|s|] == s;
  }

  /** `getAll`: no header gives no cookies; otherwise one cookie per
      ";"-separated segment, in header order. */
  function GetAll(header: Option<string>): (cookies: seq<Cookie>)
    ensures header.None? ==> cookies == []
    ensures header.Some? ==>
              |cookies| == |Split(header.value, ';')|
              && forall i | 0 <= i < |cookies| :: cookies[i] == ParseSegment(Split(header.value, ';')[i])
  {
    match header
    case None => []
    case Some(h) =>
      var segments := Split(h, ';');
      seq(|segments|, i requires 0 <= i < |segments| => ParseSegment(segments[i]))
  }

  /** A header holds one cookie more than it has ";" separators, and the
      segments the cookies come from make up the header again. */
  lemma CookieCount(header: string)
    ensures |GetAll(Some(header))| == multiset(header)[';'] + 1
    ensures Join(Split(header, ';'), [';']) == header
  {
    SplitCount(header, ';');
    JoinSplit(header, ';');
  }
}
