/** The string operations the trading services rely on, over ASCII text. */
module Text {
  import opened Wrappers

  predicate IsSpace(c: char) {
    c == ' ' || '\t' <= c <= '\r' || '\U{1C}' <= c <= '\U{1F}'
  }

  function StripLeft(s: string): (r: string)
    ensures |r| <= |s|
    ensures r != "" ==> !IsSpace(r[0])
    ensures s != "" && !IsSpace(s[0]) ==> r == s
  {
    if s == "" || !IsSpace(s[0]) then s else StripLeft(s[1..])
  }

  function StripRight(s: string): (r: string)
    ensures |r| <= |s|
    ensures r != "" ==> !IsSpace(r[|r| - 1]) && r[0] == s[0]
    ensures s != "" && !IsSpace(s[|s| - 1]) ==> r == s
  {
    if s == "" || !IsSpace(s[|s| - 1]) then s else StripRight(s[..|s| - 1])
  }

  /** `s.strip()`. */
  function Strip(s: string): string {
    StripRight(StripLeft(s))
  }

  /** `s.lower()`. */
  function Lower(s: string): string {
    seq(|s|, i requires 0 <= i < |s| => if 'A' <= s[i] <= 'Z' then s[i] - 'A' + 'a' else s[i])
  }

  predicate Blank(s: string) {
    Strip(s) == ""
  }

  /** `s.strip() or None`. */
  function StripOrNone(s: Option<string>): Option<string> {
    if s.None? || Blank(s.value) then None else Some(Strip(s.value))
  }

  lemma StripIsIdempotent(s: string)
    ensures Strip(Strip(s)) == Strip(s)
  {
    var r := Strip(s);
    if r != "" {
      assert !IsSpace(r[0]);
      assert StripLeft(r) == r;
    }
  }

  lemma NotBlank(s: string)
    requires s != "" && !IsSpace(s[0])
    ensures !Blank(s)
  {
    if Strip(s) == "" {
      AllStripped(s);
    }
  }

  lemma {:induction false} AllStripped(s: string)
    requires StripRight(s) == ""
    ensures forall i :: 0 <= i < |s| ==> IsSpace(s[i])
  {
    if s == "" || !IsSpace(s[|s| - 1]) {
    } else {
      AllStripped(s[..|s| - 1]);
    }
  }

  const SPACES: set<char> := {' ', '\t', '\n', '\U{0B}', '\U{0C}', '\r', '\U{1C}', '\U{1D}', '\U{1E}', '\U{1F}'}

  ghost predicate AllSpaces(s: string) {
    forall i :: 0 <= i < |s| ==> s[i] in SPACES
  }

  lemma SpaceMeaning(c: char)
    ensures IsSpace(c) <==> c in SPACES
  {
  }

  lemma {:induction false} StripLeftMeaning(s: string) returns (spaces: string)
    ensures s == spaces + StripLeft(s) && AllSpaces(spaces)
  {
    if s == "" || !IsSpace(s[0]) {
      spaces := "";
    } else {
      SpaceMeaning(s[0]);
      var more := StripLeftMeaning(s[1..]);
      spaces := [s[0]] + more;
    }
  }

  lemma {:induction false} StripRightMeaning(s: string) returns (spaces: string)
    ensures s == StripRight(s) + spaces && AllSpaces(spaces)
  {
    if s == "" || !IsSpace(s[|s| - 1]) {
      spaces := "";
    } else {
      SpaceMeaning(s[|s| - 1]);
      var more := StripRightMeaning(s[..|s| - 1]);
      spaces := more + [s[|s| - 1]];
      assert s == s[..|s| - 1] + [s[|s| - 1]];
    }
  }

  /** Stripping takes spaces off both ends, and leaves nothing that begins or ends with one. */
  lemma StripMeaning(s: string) returns (before: string, after: string)
    ensures s == before + Strip(s) + after && AllSpaces(before) && AllSpaces(after)
    ensures Strip(s) != "" ==> Strip(s)[0] !in SPACES && Strip(s)[|Strip(s)| - 1] !in SPACES
  {
    before := StripLeftMeaning(s);
    after := StripRightMeaning(StripLeft(s));
    if Strip(s) != "" {
      SpaceMeaning(Strip(s)[0]);
      SpaceMeaning(Strip(s)[|Strip(s)| - 1]);
    }
  }

  lemma {:induction false} StripLeftOf(spaces: string, rest: string)
    requires AllSpaces(spaces) && rest != "" && rest[0] !in SPACES
    ensures StripLeft(spaces + rest) == rest
  {
    if spaces == "" {
      assert spaces + rest == rest;
      SpaceMeaning(rest[0]);
    } else {
      SpaceMeaning(spaces[0]);
      StripLeftOf(spaces[1..], rest);
      assert (spaces + rest)[1..] == spaces[1..] + rest;
    }
  }

  lemma {:induction false} StripRightOf(rest: string, spaces: string)
    requires AllSpaces(spaces) && rest != "" && rest[|rest| - 1] !in SPACES
    ensures StripRight(rest + spaces) == rest
  {
    if spaces == "" {
      assert rest + spaces == rest;
      SpaceMeaning(rest[|rest| - 1]);
    } else {
      var n := |spaces| - 1;
      SpaceMeaning(spaces[n]);
      StripRightOf(rest, spaces[..n]);
      assert (rest + spaces)[..|rest + spaces| - 1] == rest + spaces[..n];
    }
  }

  lemma StripOf(before: string, core: string, after: string)
    requires AllSpaces(before) && AllSpaces(after)
    requires core != "" && core[0] !in SPACES && core[|core| - 1] !in SPACES
    ensures Strip(before + core + after) == core
  {
    assert before + core + after == before + (core + after);
    StripLeftOf(before, core + after);
    StripRightOf(core, after);
  }

  /** The letters A to Z become small, and every other character stays. */
  lemma LowerMeaning(s: string, i: nat)
    requires i < |s|
    ensures |Lower(s)| == |s|
    ensures
      var capitals, letters := "ABCDEFGHIJKLMNOPQRSTUVWXYZ", "abcdefghijklmnopqrstuvwxyz";
      if s[i] in capitals then exists k :: 0 <= k < 26 && s[i] == capitals[k] && Lower(s)[i] == letters[k]
      else Lower(s)[i] == s[i]
  {
    var capitals, letters := "ABCDEFGHIJKLMNOPQRSTUVWXYZ", "abcdefghijklmnopqrstuvwxyz";
    if 'A' <= s[i] <= 'Z' {
      var k := (s[i] - 'A') as int;
      assert capitals[k] == s[i] && letters[k] == s[i] - 'A' + 'a';
    }
  }
}
