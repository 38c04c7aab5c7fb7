/** Trimming and splitting strings. */
module Text {

  /** The characters that Python counts as whitespace. */
  predicate IsSpace(c: char) {
    var n := c as int;
    || 0x09 <= n <= 0x0d
    || 0x1c <= n <= 0x20
    || 0x2000 <= n <= 0x200a
    || n in {0x85, 0xa0, 0x1680, 0x2028, 0x2029, 0x202f, 0x205f, 0x3000}
  }

  function StripLeft(s: string): string {
    if s != "" && IsSpace(s[0]) then StripLeft(s[1..]) else s
  }

  function StripRight(s: string): string {
    if s != "" && IsSpace(s[|s| - 1]) then StripRight(s[..|s| - 1]) else s
  }

  function Strip(s: string): string {
    StripRight(StripLeft(s))
  }

  lemma {:induction false} StripRightKeepsHead(s: string)
    requires StripRight(s) != ""
    ensures StripRight(s)[0] == s[0]
  {
    if s != "" && IsSpace(s[|s| - 1]) {
      StripRightKeepsHead(s[..|s| - 1]);
    }
  }

  lemma {:induction false} StripEnds(s: string)
    ensures StripLeft(s) == "" || !IsSpace(StripLeft(s)[0])
    ensures StripRight(s) == "" || !IsSpace(StripRight(s)[|StripRight(s)| - 1])
    decreases |s|
  {
    if s != "" {
      StripEnds(s[1..]);
      StripEnds(s[..|s| - 1]);
    }
  }

  /** The blanks of ASCII are whitespace, and its visible characters are not. */
  lemma {:induction false} SpaceInAscii(c: char)
    requires c as int < 0x7f
    ensures IsSpace(c) <==> c in {'\t', '\n', '\U{0b}', '\U{0c}', '\r', '\U{1c}', '\U{1d}', '\U{1e}', '\U{1f}', ' '}
  {
  }

  predicate AllSpace(s: string) {
    forall i :: 0 <= i < |s| ==> IsSpace(s[i])
  }

  lemma {:induction false} StripLeftIs(s: string) returns (left: string)
    ensures AllSpace(left) && s == left + StripLeft(s)
  {
    left := "";
    if s != "" && IsSpace(s[0]) {
      var rest := StripLeftIs(s[1..]);
      left := [s[0]] + rest;
      assert s == [s[0]] + s[1..];
    }
  }

  lemma {:induction false} StripRightIs(s: string) returns (right: string)
    ensures AllSpace(right) && s == StripRight(s) + right
  {
    right := "";
    if s != "" && IsSpace(s[|s| - 1]) {
      var rest := StripRightIs(s[..|s| - 1]);
      right := rest + [s[|s| - 1]];
      assert s == s[..|s| - 1] + [s[|s| - 1]];
    }
  }

  /** Only whitespace is taken off, on both sides, and none is left at either end. */
  lemma {:induction false} StripIs(s: string) returns (left: string, right: string)
    ensures AllSpace(left) && AllSpace(right) && s == left + Strip(s) + right
    ensures Strip(s) != "" ==> !IsSpace(Strip(s)[0]) && !IsSpace(Strip(s)[|Strip(s)| - 1])
  {
    left := StripLeftIs(s);
    right := StripRightIs(StripLeft(s));
    StripEnds(s);
    StripEnds(StripLeft(s));
    if Strip(s) != "" {
      StripRightKeepsHead(StripLeft(s));
    }
  }

  lemma {:induction false} StripTwice(s: string)
    ensures Strip(Strip(s)) == Strip(s)
  {
    StripEnds(s);
    StripEnds(StripLeft(s));
    if Strip(s) != "" {
      StripRightKeepsHead(StripLeft(s));
    }
  }

  predicate Contains(s: string, c: char) {
    exists i :: 0 <= i < |s| && s[i] == c
  }

  /** The parts of `s` between occurrences of `c`. */
  function Split(s: string, c: char): (r: seq<string>)
    ensures r != []
  {
    if s == "" then [""]
    else
      var rest := Split(s[1..], c);
      if s[0] == c then [""] + rest else [[s[0]] + rest[0]] + rest[1..]
  }

  function Join(parts: seq<string>, c: char): string {
    if parts == [] then "" else if |parts| == 1 then parts[0] else parts[0] + [c] + Join(parts[1..], c)
  }

  lemma {:induction false} PartHasNone(s: string, c: char, i: nat)
    requires i < |Split(s, c)|
    ensures !Contains(Split(s, c)[i], c)
  {
    if s != "" {
      var rest := Split(s[1..], c);
      if s[0] == c {
        if i > 0 {
          PartHasNone(s[1..], c, i - 1);
        }
      } else if i > 0 {
        PartHasNone(s[1..], c, i);
      } else {
        PartHasNone(s[1..], c, 0);
        var first := [s[0]] + rest[0];
        assert Split(s, c)[0] == first;
        assert forall j :: 0 < j < |first| ==> first[j] == rest[0][j - 1];
      }
    }
  }

  lemma {:induction false} JoinBack(s: string, c: char)
    ensures Join(Split(s, c), c) == s
  {
    if s != "" {
      JoinBack(s[1..], c);
      var rest := Split(s[1..], c);
      assert s == [s[0]] + s[1..];
      if s[0] == c {
        assert Split(s, c)[1..] == rest;
      } else {
        assert Split(s, c)[1..] == rest[1..];
      }
    }
  }

  /** Splitting loses nothing, and no part holds the separator. */
  lemma {:induction false} SplitThenJoin(s: string, c: char)
    ensures Join(Split(s, c), c) == s
    ensures forall i :: 0 <= i < |Split(s, c)| ==> !Contains(Split(s, c)[i], c)
  {
    JoinBack(s, c);
    forall i: nat | i < |Split(s, c)| ensures !Contains(Split(s, c)[i], c) {
      PartHasNone(s, c, i);
    }
  }
}
