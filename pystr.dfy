/**
 * The Python `str` methods the ticker normalisation uses, restricted to ASCII:
 * `strip()` with no argument, `upper()`, `split(sep)` for a one-character
 * separator, and `sep.join(pieces)` to state round trips.
 */
module PyStr {

  /** `c.isspace()` on ASCII: TAB, LF, VT, FF, CR (9-13), the separators FS, GS, RS, US (28-31) and space (32). */
  predicate IsSpace(c: char) {
    9 <= c as int <= 13 || 28 <= c as int <= 32
  }

  /** Every character is whitespace (true of the empty string). */
  predicate IsBlank(s: string) {
    forall k :: 0 <= k < |s| ==> IsSpace(s[k])
  }

  /** Every string of the list is blank. */
  predicate AllBlank(pieces: seq<string>) {
    forall i :: 0 <= i < |pieces| ==> IsBlank(pieces[i])
  }

  /** Every character is whitespace or `sep`. */
  predicate OnlySpaceOr(s: string, sep: char) {
    forall k :: 0 <= k < |s| ==> IsSpace(s[k]) || s[k] == sep
  }

  /** No whitespace at either end. */
  predicate IsStripped(s: string) {
    s == [] || (!IsSpace(s[0]) && !IsSpace(s[|s| - 1]))
  }

  predicate IsLower(c: char) {
    'a' <= c <= 'z'
  }

  /** No ASCII lower-case letter anywhere. */
  predicate IsUpper(s: string) {
    forall k :: 0 <= k < |s| ==> !IsLower(s[k])
  }

  /** Where the non-blank part of `s` starts: the number of leading whitespace characters. */
  function StripStart(s: string): (i: nat)
    ensures i <= |s| && IsBlank(s[..i])
    ensures i < |s| ==> !IsSpace(s[i])
  {
    if s != [] && IsSpace(s[0]) then
      var i := 1 + StripStart(s[1..]);
      assert forall k :: 1 <= k < i ==> s[..i][k] == s[1..][..i - 1][k - 1];
      i
    else 0
  }

  /**
   * Scanning down from `j`, but not below `i`, where the trailing whitespace
   * of `s` starts.
   */
  function StripEnd(s: string, i: nat, j: nat): (e: nat)
    requires i <= j <= |s| && IsBlank(s[j..])
    ensures i <= e <= j && IsBlank(s[e..])
    ensures e > i ==> !IsSpace(s[e - 1])
    decreases j
  {
    if j > i && IsSpace(s[j - 1]) then
      StripEnd(s, i, j - 1)
    else j
  }

  /**
   * `s.strip()`: the infix of `s` between its leading and its trailing
   * whitespace, found as CPython does it, first from the left, then from the
   * right down to where the left scan stopped.
   */
  function Strip(s: string): (r: string)
    ensures IsStripped(r)
    ensures StripStart(s) + |r| <= |s| && r == s[StripStart(s)..StripStart(s) + |r|]
    ensures IsBlank(s[..StripStart(s)]) && IsBlank(s[StripStart(s) + |r|..])
    ensures r == [] <==> IsBlank(s)
    ensures IsStripped(s) ==> r == s
  {
    var i := StripStart(s);
    var j := StripEnd(s, i, |s|);
    StripBlank(s, i, j);
    s[i..j]
  }

  lemma StripBlank(s: string, i: nat, j: nat)
    requires i == StripStart(s) && i <= j <= |s|
    requires IsBlank(s[j..]) && (j > i ==> !IsSpace(s[j - 1]))
    requires j == StripEnd(s, i, |s|)
    ensures i == j <==> IsBlank(s)
    ensures IsStripped(s) ==> i == 0 && j == |s|
  {
    if i == j {
      assert i == |s|;
      assert s[..i] == s;
    }
    if IsStripped(s) && s != [] {
      assert !IsSpace(s[|s| - 1]);
    }
  }

  function UpperChar(c: char): char {
    if IsLower(c) then (c as int - 32) as char else c
  }

  /** `s.upper()` on ASCII: each letter a-z becomes A-Z, every other character stays. */
  function Upper(s: string): (r: string)
    ensures |r| == |s| && IsUpper(r)
    ensures forall k :: 0 <= k < |s| && !IsLower(s[k]) ==> r[k] == s[k]
    ensures forall k :: 0 <= k < |s| && IsLower(s[k]) ==> 'A' <= r[k] <= 'Z' && r[k] as int - 'A' as int == s[k] as int - 'a' as int
    ensures IsUpper(s) ==> r == s
  {
    seq(|s|, k requires 0 <= k < |s| => UpperChar(s[k]))
  }

  /** Stripping brings in no character that was not already there. */
  lemma StripKeepsOut(s: string, c: char)
    ensures c !in s ==> c !in Strip(s)
  {
    var r := Strip(s);
    var i := StripStart(s);
    if c in r {
      var k :| 0 <= k < |r| && r[k] == c;
      assert r[k] == s[i + k];
    }
  }

  /** Upper-casing brings in no character that is not a letter. */
  lemma UpperKeepsOut(s: string, c: char)
    ensures c !in s && !IsLower(c) && !('A' <= c <= 'Z') ==> c !in Upper(s)
  {
    var r := Upper(s);
    if c in r {
      var k :| 0 <= k < |r| && r[k] == c;
    }
  }

  /** The number of occurrences of `c` in `s`. */
  function Count(s: string, c: char): nat {
    if s == [] then 0 else (if s[0] == c then 1 else 0) + Count(s[1..], c)
  }

  /** `sep.join(pieces)`. */
  function Join(pieces: seq<string>, sep: char): string {
    if pieces == [] then ""
    else if |pieces| == 1 then pieces[0]
    else pieces[0] + [sep] + Join(pieces[1..], sep)
  }

  /**
   * `s.split(sep)`: one more piece than there are separators, no piece holds
   * the separator, and joining the pieces with it gives `s` back.
   */
  function Split(s: string, sep: char): (r: seq<string>)
    ensures |r| == Count(s, sep) + 1
    ensures forall i :: 0 <= i < |r| ==> sep !in r[i]
    ensures Join(r, sep) == s
  {
    if s == [] then [""]
    else
      var rest := Split(s[1..], sep);
      if s[0] == sep then
        assert ([""] + rest)[1..] == rest;
        [""] + rest
      else
        var r := [[s[0]] + rest[0]] + rest[1..];
        assert r[1..] == rest[1..];
        r
  }

  /** A piece without the separator, followed by the separator, splits off as one piece. */
  lemma {:induction false} SplitAfter(p: string, t: string, sep: char)
    requires sep !in p
    ensures Split(p + [sep] + t, sep) == [p] + Split(t, sep)
  {
    var s := p + [sep] + t;
    if p == [] {
      assert s[1..] == t;
    } else {
      assert s[1..] == p[1..] + [sep] + t;
      SplitAfter(p[1..], t, sep);
      assert [p[0]] + p[1..] == p;
    }
  }

  /** A string without the separator is a single piece. */
  lemma {:induction false} SplitNoSep(p: string, sep: char)
    requires sep !in p
    ensures Split(p, sep) == [p]
  {
    if p != [] {
      SplitNoSep(p[1..], sep);
      assert [p[0]] + p[1..] == p;
    }
  }

  /** Splitting undoes joining, for a non-empty list of pieces that do not hold the separator. */
  lemma {:induction false} SplitJoin(pieces: seq<string>, sep: char)
    requires pieces != []
    requires forall i :: 0 <= i < |pieces| ==> sep !in pieces[i]
    ensures Split(Join(pieces, sep), sep) == pieces
  {
    if |pieces| == 1 {
      SplitNoSep(pieces[0], sep);
    } else {
      SplitJoin(pieces[1..], sep);
      SplitAfter(pieces[0], Join(pieces[1..], sep), sep);
      assert [pieces[0]] + pieces[1..] == pieces;
    }
  }

  /** Every piece is blank exactly when every character of `s` is whitespace or the separator. */
  lemma {:induction false} SplitAllBlank(s: string, sep: char)
    ensures AllBlank(Split(s, sep)) <==> OnlySpaceOr(s, sep)
  {
    if s != [] {
      SplitAllBlank(s[1..], sep);
      OnlySpaceOrCons(s, sep);
      var rest := Split(s[1..], sep);
      if s[0] != sep {
        assert Split(s, sep) == [[s[0]] + rest[0]] + rest[1..];
        AllBlankCons([s[0]] + rest[0], rest[1..]);
        AllBlankCons(rest[0], rest[1..]);
        assert [rest[0]] + rest[1..] == rest;
        BlankCons(s[0], rest[0]);
      } else {
        AllBlankCons("", rest);
      }
    }
  }

  lemma BlankCons(c: char, s: string)
    ensures IsBlank([c] + s) <==> IsSpace(c) && IsBlank(s)
  {
    assert ([c] + s)[0] == c;
    assert forall k :: 0 <= k < |s| ==> ([c] + s)[k + 1] == s[k];
  }

  lemma AllBlankCons(p: string, ps: seq<string>)
    ensures AllBlank([p] + ps) <==> IsBlank(p) && AllBlank(ps)
  {
    assert ([p] + ps)[0] == p;
    assert forall i :: 0 <= i < |ps| ==> ([p] + ps)[i + 1] == ps[i];
  }

  lemma OnlySpaceOrCons(s: string, sep: char)
    requires s != []
    ensures OnlySpaceOr(s, sep) <==> (IsSpace(s[0]) || s[0] == sep) && OnlySpaceOr(s[1..], sep)
  {
    assert forall k :: 1 <= k < |s| ==> s[1..][k - 1] == s[k];
  }
}
