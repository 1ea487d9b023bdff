/** PHP's string functions as the modelled code uses them. */
module PhpStrings {

  /** The characters `trim` removes. */
  predicate Trimmable(c: char) {
    c == ' ' || c == '\t' || c == '\n' || c == '\r' || c == '\0' || c == '\U{B}'
  }

  function TrimLeft(s: string): string {
    if s != "" && Trimmable(s[0]) then TrimLeft(s[1..]) else s
  }

  function TrimRight(s: string): string {
    if s != "" && Trimmable(s[|s| - 1]) then TrimRight(s[..|s| - 1]) else s
  }

  function Trim(s: string): string {
    TrimRight(TrimLeft(s))
  }

  predicate Trimmed(s: string) {
    s == "" || (!Trimmable(s[0]) && !Trimmable(s[|s| - 1]))
  }

  lemma {:induction false} TrimLeftStarts(s: string)
    ensures TrimLeft(s) == "" || !Trimmable(TrimLeft(s)[0])
    ensures |TrimLeft(s)| <= |s|
  {
    if s != "" && Trimmable(s[0]) {
      TrimLeftStarts(s[1..]);
    }
  }

  lemma {:induction false} TrimRightEnds(s: string)
    ensures TrimRight(s) <= s
    ensures TrimRight(s) == "" || !Trimmable(TrimRight(s)[|TrimRight(s)| - 1])
  {
    if s != "" && Trimmable(s[|s| - 1]) {
      TrimRightEnds(s[..|s| - 1]);
    }
  }

  lemma TrimTrims(s: string)
    ensures Trimmed(Trim(s)) && |Trim(s)| <= |s|
    ensures Trimmed(s) ==> Trim(s) == s
  {
    TrimLeftStarts(s);
    TrimRightEnds(TrimLeft(s));
  }

  /** `str_replace('\\', '/', …)` */
  function ForwardSlashes(s: string): (r: string)
    ensures |r| == |s| && '\\' !in r
    ensures '\\' !in s ==> r == s
  {
    seq(|s|, i requires 0 <= i < |s| => if s[i] == '\\' then '/' else s[i])
  }

  /** `explode('/', …)` */
  function Split(s: string): (segments: seq<string>)
    ensures segments != []
    ensures forall i, k :: 0 <= i < |segments| && 0 <= k < |segments[i]| ==> segments[i][k] != '/'
    ensures s != [] ==> (segments[0] == [] <==> s[0] == '/')
  {
    if s == [] then [""]
    else
      var rest := Split(s[1..]);
      if s[0] == '/' then [""] + rest else [[s[0]] + rest[0]] + rest[1..]
  }

  /** `implode('/', …)` */
  function Join(segments: seq<string>): string {
    if segments == [] then ""
    else if |segments| == 1 then segments[0]
    else segments[0] + "/" + Join(segments[1..])
  }

  lemma SplitAtSlash(first: string, rest: string)
    requires '/' !in first
    ensures Split(first + "/" + rest) == [first] + Split(rest)
  {
    assert ("/" + rest)[1..] == rest;
    assert Split("/" + rest) == [""] + Split(rest);
    SplitAfter(first, "/" + rest);
    assert first + "/" + rest == first + ("/" + rest);
    assert first + "" == first;
  }

  lemma {:induction false} SplitOfJoin(segments: seq<string>)
    requires segments != [] && forall i :: 0 <= i < |segments| ==> '/' !in segments[i]
    ensures Split(Join(segments)) == segments
    decreases |segments|
  {
    if |segments| == 1 {
      SplitAfter(segments[0], "");
      assert segments[0] + "" == segments[0];
    } else {
      var rest := Join(segments[1..]);
      SplitOfJoin(segments[1..]);
      SplitAtSlash(segments[0], rest);
      assert segments == [segments[0]] + segments[1..];
    }
  }

  lemma {:induction false} SplitAfter(first: string, tail: string)
    requires '/' !in first
    ensures Split(first + tail) == [first + Split(tail)[0]] + Split(tail)[1..]
  {
    if first == "" {
      assert first + tail == tail;
      assert first + Split(tail)[0] == Split(tail)[0];
    } else {
      SplitAfter(first[1..], tail);
      assert first + tail == [first[0]] + (first[1..] + tail);
      SplitCons(first[0], first[1..] + tail);
      assert [first[0]] + (first[1..] + Split(tail)[0]) == first + Split(tail)[0];
    }
  }

  lemma SplitCons(c: char, s: string)
    requires c != '/'
    ensures Split([c] + s) == [[c] + Split(s)[0]] + Split(s)[1..]
  {
    assert ([c] + s)[1..] == s;
  }

  /** A character of a joined text is a separator or stands in a segment. */
  lemma {:induction false} JoinedCharacters(segments: seq<string>, c: char)
    requires c in Join(segments) && c != '/'
    ensures exists i :: 0 <= i < |segments| && c in segments[i]
  {
    if |segments| > 1 && c !in segments[0] {
      assert c in Join(segments[1..]);
      JoinedCharacters(segments[1..], c);
      var i :| 0 <= i < |segments| - 1 && c in segments[1..][i];
      assert c in segments[i + 1];
    } else {
      assert c in segments[0];
    }
  }

  lemma {:induction false} JoinOneMore(segments: seq<string>, last: string)
    requires segments != []
    ensures Join(segments + [last]) == Join(segments) + "/" + last
  {
    if |segments| > 1 {
      assert (segments + [last])[1..] == segments[1..] + [last];
      JoinOneMore(segments[1..], last);
    }
  }
}
