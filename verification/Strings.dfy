/** Python's whitespace and stripping. */
module Strings {
  /** The characters `str.strip` removes. */
  predicate IsSpace(c: char) {
    var n := c as int;
    || 0x09 <= n <= 0x0D || 0x1C <= n <= 0x20 || n == 0x85 || n == 0xA0 || n == 0x1680
    || 0x2000 <= n <= 0x200A || n == 0x2028 || n == 0x2029 || n == 0x202F || n == 0x205F || n == 0x3000
  }

  function LStrip(s: string): (r: string)
    ensures |r| <= |s| && r == s[|s| - |r|..]
    ensures r != "" ==> !IsSpace(r[0])
  {
    if s != "" && IsSpace(s[0]) then LStrip(s[1..]) else s
  }

  function RStrip(s: string): (r: string)
    ensures |r| <= |s| && r == s[..|r|]
    ensures r != "" ==> !IsSpace(r[|r| - 1])
  {
    if s != "" && IsSpace(s[|s| - 1]) then RStrip(s[..|s| - 1]) else s
  }

  function Strip(s: string): (r: string)
    ensures |r| <= |s|
    ensures r != "" ==> !IsSpace(r[0]) && !IsSpace(r[|r| - 1])
  {
    var l := LStrip(s);
    var r := RStrip(l);
    assert r != "" ==> r[0] == l[0];
    r
  }

  /** The text without its whitespace. */
  function Ink(s: string): string {
    if s == "" then "" else (if IsSpace(s[0]) then "" else [s[0]]) + Ink(s[1..])
  }

  lemma {:induction false} InkOfConcat(a: string, b: string)
    ensures Ink(a + b) == Ink(a) + Ink(b)
  {
    if a == "" {
      assert a + b == b;
      assert Ink(a) + Ink(b) == Ink(b);
    } else {
      InkOfConcat(a[1..], b);
      InkCons(a[0], a[1..]);
      InkCons(a[0], a[1..] + b);
      assert a == [a[0]] + a[1..] && a + b == [a[0]] + (a[1..] + b);
    }
  }

  lemma InkCons(c: char, rest: string)
    ensures Ink([c] + rest) == (if IsSpace(c) then "" else [c]) + Ink(rest)
  {
    assert ([c] + rest)[1..] == rest;
  }

  lemma {:induction false} LStripKeepsInk(s: string)
    ensures Ink(LStrip(s)) == Ink(s)
  {
    if s != "" && IsSpace(s[0]) {
      LStripKeepsInk(s[1..]);
    }
  }

  lemma {:induction false} RStripKeepsInk(s: string)
    ensures Ink(RStrip(s)) == Ink(s)
  {
    if s != "" && IsSpace(s[|s| - 1]) {
      var front := s[..|s| - 1];
      RStripKeepsInk(front);
      assert s == front + [s[|s| - 1]];
      InkOfConcat(front, [s[|s| - 1]]);
    }
  }

  /** Stripping removes whitespace only. */
  lemma StripKeepsInk(s: string)
    ensures Ink(Strip(s)) == Ink(s)
    ensures Strip(s) == "" <==> Ink(s) == ""
  {
    LStripKeepsInk(s);
    RStripKeepsInk(LStrip(s));
    if Strip(s) != "" {
      assert Strip(s) == [Strip(s)[0]] + Strip(s)[1..];
    }
  }

  lemma {:induction false} RStripDropsSpace(s: string)
    ensures forall i :: |RStrip(s)| <= i < |s| ==> IsSpace(s[i])
  {
    if s != "" && IsSpace(s[|s| - 1]) {
      var front := s[..|s| - 1];
      RStripDropsSpace(front);
      assert forall i :: 0 <= i < |front| ==> front[i] == s[i];
    }
  }

  lemma {:induction false} LStripDropsSpace(s: string)
    ensures forall i :: 0 <= i < |s| - |LStrip(s)| ==> IsSpace(s[i])
  {
    if s != "" && IsSpace(s[0]) {
      LStripDropsSpace(s[1..]);
      assert forall i :: 1 <= i < |s| ==> s[i] == s[1..][i - 1];
    }
  }

  lemma LStripFixed(s: string)
    requires s == "" || !IsSpace(s[0])
    ensures LStrip(s) == s
  {
  }

  lemma RStripFixed(s: string)
    requires s == "" || !IsSpace(s[|s| - 1])
    ensures RStrip(s) == s
  {
  }
}
