/** The CPF input mask shared by front/src/pages/Index.tsx,
    front/src/components/FuncionarioEPIManager.tsx and
    front/src/components/FuncionarioForm.tsx: strip every non-digit, then
    four regular-expression replacements. Each replacement is written as a
    slice on the string it receives; the lemmas show the chain is the
    `000.000.000-00` mask of the first eleven digits. */
module Masks {
  import opened Seqs

  predicate IsDigit(c: char)
  {
    '0' <= c <= '9'
  }

  predicate AllDigits(s: string)
  {
    forall i :: 0 <= i < |s| ==> IsDigit(s[i])
  }

  /** `value.replace(/\D/g, "")`: the digits of `s`, in order. */
  function Digits(s: string): (r: string)
    ensures AllDigits(r) && |r| <= |s|
  {
    Filter(s, IsDigit)
  }

  /** `s.slice(0, n)`. */
  function Take(s: string, n: nat): (r: string)
    ensures |r| == if |s| <= n then |s| else n
    ensures r == s[..|r|]
  {
    if |s| <= n then s else s[..n]
  }

  /** Stripping non-digits distributes over concatenation. */
  lemma DigitsConcat(a: string, b: string)
    ensures Digits(a + b) == Digits(a) + Digits(b)
  {
    FilterConcat(a, b, IsDigit);
  }

  /** A digit string is its own digits. */
  lemma DigitsOfDigits(s: string)
    requires AllDigits(s)
    ensures Digits(s) == s
  {
    FilterKeepsAll(s, IsDigit);
  }

  lemma DigitsOfDigitsIf(s: string)
    ensures AllDigits(s) ==> Digits(s) == s
  {
    if AllDigits(s) {
      DigitsOfDigits(s);
    }
  }

  /** Stripping twice strips nothing more. */
  lemma DigitsIdempotent(s: string)
    ensures Digits(Digits(s)) == Digits(s)
  {
    DigitsOfDigits(Digits(s));
  }

  /** A separator character contributes no digits. */
  lemma DigitsOfSeparator(c: char)
    requires !IsDigit(c)
    ensures Digits([c]) == ""
  {
    assert [c][..0] == [];
  }

  /** The mask `000.000.000-00` applied to a run of digits, group by group
      as far as the digits reach: the reference the regex chain is proved
      against. */
  function CpfMask(x: string): string
  {
    if |x| <= 3 then x
    else if |x| <= 6 then x[..3] + "." + x[3..]
    else if |x| <= 9 then x[..3] + "." + x[3..6] + "." + x[6..]
    else x[..3] + "." + x[3..6] + "." + x[6..9] + "-" + x[9..]
  }

  /** `.replace(/(\d{3})(\d)/, "$1.$2")` on a digit string: a dot after the
      first three digits when a fourth follows. */
  function CpfFirstDot(r: string): (res: string)
    ensures |res| == if |r| >= 4 then |r| + 1 else |r|
    ensures |r| >= 4 ==> res[3] == '.' && res[..3] == r[..3] && res[4..] == r[3..]
    ensures |r| < 4 ==> res == r
  {
    if |r| >= 4 then r[..3] + "." + r[3..] else r
  }

  /** The same replacement again: the first run of four digits now starts
      after the first dot, so the second dot goes at position 7. */
  function CpfSecondDot(r: string): (res: string)
    ensures |res| == if |r| >= 8 then |r| + 1 else |r|
    ensures |r| >= 8 ==> res[7] == '.' && res[..7] == r[..7] && res[8..] == r[7..]
    ensures |r| < 8 ==> res == r
  {
    if |r| >= 8 then r[..7] + "." + r[7..] else r
  }

  /** `.replace(/(\d{3})(\d{1,2})/, "$1-$2")`: the first three digits
      followed by a digit are the third group, so the dash goes at
      position 11. */
  function CpfDash(r: string): (res: string)
    ensures |res| == if |r| >= 12 then |r| + 1 else |r|
    ensures |r| >= 12 ==> res[11] == '-' && res[..11] == r[..11] && res[12..] == r[11..]
    ensures |r| < 12 ==> res == r
  {
    if |r| >= 12 then r[..11] + "-" + r[11..] else r
  }

  /** `.replace(/(-\d{2})\d+?$/, "$1")`: three or more digits after the dash
      are cut back to two. */
  function CpfTrim(r: string): (res: string)
    ensures |res| <= 14 && res <= r
    ensures |r| <= 14 ==> res == r
  {
    if |r| >= 15 then r[..14] else r
  }

  /** The four replacements in order, applied to a digit string. */
  function CpfChain(numbers: string): (r: string)
    ensures |r| <= 14
    ensures |numbers| <= 3 ==> r == numbers
    ensures |numbers| >= 4 ==> |r| >= 5
    ensures |numbers| >= 4 ==> r[..3] == numbers[..3] && r[3] == '.'
    ensures AllDigits(numbers) ==> (r == numbers <==> |numbers| <= 3)
  {
    CpfTrim(CpfDash(CpfSecondDot(CpfFirstDot(numbers))))
  }

  /** `formatCPF` of Index.tsx and FuncionarioEPIManager.tsx. */
  function FormatCpf(value: string): (r: string)
    ensures |r| <= 14
    ensures |Digits(value)| <= 3 ==> r == Digits(value)
    ensures AllDigits(value) ==> (r == value <==> |value| <= 3)
  {
    DigitsOfDigitsIf(value);
    CpfChain(Digits(value))
  }

  /** The chain masks the first eleven digits and drops the rest. */
  lemma CpfChainIsMask(d: string)
    ensures CpfChain(d) == CpfMask(Take(d, 11))
  {
    if 6 < |d| <= 9 {
      CpfChainThreeGroups(d);
    } else if |d| == 10 {
      CpfChainTenDigits(d);
    } else if |d| >= 11 {
      CpfChainFull(d);
      var x := Take(d, 11);
      assert x[..3] == d[..3] && x[3..6] == d[3..6] && x[6..9] == d[6..9] && x[9..] == d[9..11];
    }
  }

  /** Seven to nine digits: the second replacement's dot lands at 7. */
  lemma CpfChainThreeGroups(d: string)
    requires 6 < |d| <= 9
    ensures CpfChain(d) == d[..3] + "." + d[3..6] + "." + d[6..]
  {
    var r1 := d[..3] + "." + d[3..];
    assert r1[..7] == d[..3] + "." + d[3..6];
    assert r1[7..] == d[6..];
  }

  /** Ten digits: both dots and the dash at 11, nothing to cut. */
  lemma CpfChainTenDigits(d: string)
    requires |d| == 10
    ensures CpfChain(d) == d[..3] + "." + d[3..6] + "." + d[6..9] + "-" + d[9..]
  {
    var r1 := d[..3] + "." + d[3..];
    var r2 := r1[..7] + "." + r1[7..];
    assert r1[..7] == d[..3] + "." + d[3..6];
    assert r1[7..] == d[6..];
    assert r2[..11] == d[..3] + "." + d[3..6] + "." + d[6..9];
    assert r2[11..] == d[9..];
  }

  /** Appending a separator and a group of digits appends the group's
      digits. */
  lemma DigitsAppendGroup(prefix: string, c: char, g: string)
    requires !IsDigit(c) && AllDigits(g)
    ensures Digits(prefix + [c] + g) == Digits(prefix) + g
  {
    DigitsOfSeparator(c);
    DigitsOfDigits(g);
    DigitsConcat(prefix, [c]);
    DigitsConcat(prefix + [c], g);
  }

  /** Digit groups joined by separators: the separators carry no digits. */
  lemma GroupsDigits2(a: string, c1: char, b: string)
    requires AllDigits(a) && AllDigits(b) && !IsDigit(c1)
    ensures Digits(a + [c1] + b) == a + b
  {
    DigitsOfDigits(a);
    DigitsAppendGroup(a, c1, b);
  }

  lemma GroupsDigits3(a: string, c1: char, b: string, c2: char, c: string)
    requires AllDigits(a) && AllDigits(b) && AllDigits(c) && !IsDigit(c1) && !IsDigit(c2)
    ensures Digits(a + [c1] + b + [c2] + c) == a + b + c
  {
    GroupsDigits2(a, c1, b);
    DigitsAppendGroup(a + [c1] + b, c2, c);
  }

  lemma GroupsDigits4(a: string, c1: char, b: string, c2: char, c: string, c3: char, d: string)
    requires AllDigits(a) && AllDigits(b) && AllDigits(c) && AllDigits(d)
    requires !IsDigit(c1) && !IsDigit(c2) && !IsDigit(c3)
    ensures Digits(a + [c1] + b + [c2] + c + [c3] + d) == a + b + c + d
  {
    GroupsDigits3(a, c1, b, c2, c);
    DigitsAppendGroup(a + [c1] + b + [c2] + c, c3, d);
  }

  lemma GroupsDigits5(a: string, c1: char, b: string, c2: char, c: string, c3: char, d: string, c4: char, e: string)
    requires AllDigits(a) && AllDigits(b) && AllDigits(c) && AllDigits(d) && AllDigits(e)
    requires !IsDigit(c1) && !IsDigit(c2) && !IsDigit(c3) && !IsDigit(c4)
    ensures Digits(a + [c1] + b + [c2] + c + [c3] + d + [c4] + e) == a + b + c + d + e
  {
    GroupsDigits4(a, c1, b, c2, c, c3, d);
    DigitsAppendGroup(a + [c1] + b + [c2] + c + [c3] + d, c4, e);
  }

  /** Removing the punctuation of a mask gives back its digits. */
  lemma CpfMaskDigits(x: string)
    requires AllDigits(x)
    ensures Digits(CpfMask(x)) == x
  {
    if |x| <= 3 {
      DigitsOfDigits(x);
    } else if |x| <= 6 {
      CpfTwoGroups(x);
    } else if |x| <= 9 {
      CpfThreeGroups(x);
    } else {
      CpfFourGroups(x);
    }
  }

  lemma CpfTwoGroups(x: string)
    requires AllDigits(x) && 3 < |x|
    ensures Digits(x[..3] + "." + x[3..]) == x
  {
    var a, b := x[..3], x[3..];
    assert a + b == x;
    GroupsDigits2(a, '.', b);
  }

  lemma CpfThreeGroups(x: string)
    requires AllDigits(x) && 6 < |x|
    ensures Digits(x[..3] + "." + x[3..6] + "." + x[6..]) == x
  {
    var a, b, c := x[..3], x[3..6], x[6..];
    assert a + b + c == x;
    GroupsDigits3(a, '.', b, '.', c);
  }

  lemma CpfFourGroups(x: string)
    requires AllDigits(x) && 9 < |x|
    ensures Digits(x[..3] + "." + x[3..6] + "." + x[6..9] + "-" + x[9..]) == x
  {
    var a, b, c, d := x[..3], x[3..6], x[6..9], x[9..];
    assert a + b + c + d == x;
    GroupsDigits4(a, '.', b, '.', c, '-', d);
  }

  /** The first eleven digits of a digit string are digits. */
  lemma TakeDigits(d: string, n: nat)
    requires AllDigits(d)
    ensures AllDigits(Take(d, n))
  {
  }

  /** `formatCPF` keeps exactly the first eleven digits of its input: its
      digits are those, in order, and nothing else. */
  lemma FormatCpfDigits(value: string)
    ensures Digits(FormatCpf(value)) == Take(Digits(value), 11)
  {
    CpfChainIsMask(Digits(value));
    TakeDigits(Digits(value), 11);
    CpfMaskDigits(Take(Digits(value), 11));
  }

  /** Re-applying `formatCPF` to its own output, as each keystroke does,
      changes nothing. */
  lemma FormatCpfIdempotent(value: string)
    ensures FormatCpf(FormatCpf(value)) == FormatCpf(value)
  {
    var d := Digits(value);
    FormatCpfDigits(value);
    CpfChainIsMask(d);
    CpfChainIsMask(Take(d, 11));
  }

  /** With eleven or more digits the result is the full mask
      `ddd.ddd.ddd-dd` of the first eleven, fourteen characters long. */
  lemma FormatCpfFull(value: string)
    requires |Digits(value)| >= 11
    ensures var d := Digits(value);
            FormatCpf(value) == d[..3] + "." + d[3..6] + "." + d[6..9] + "-" + d[9..11]
    ensures |FormatCpf(value)| == 14
  {
    CpfChainFull(Digits(value));
  }

  /** The chain on eleven or more digits. */
  lemma CpfChainFull(d: string)
    requires |d| >= 11
    ensures CpfChain(d) == d[..3] + "." + d[3..6] + "." + d[6..9] + "-" + d[9..11]
  {
    var r1 := d[..3] + "." + d[3..];
    var r2 := r1[..7] + "." + r1[7..];
    assert r1[..7] == d[..3] + "." + d[3..6];
    assert r1[7..] == d[6..];
    assert r2[..11] == d[..3] + "." + d[3..6] + "." + d[6..9];
    assert r2[11..] == d[9..];
    var r3 := r2[..11] + "-" + r2[11..];
    assert r3 == d[..3] + "." + d[3..6] + "." + d[6..9] + "-" + d[9..];
    assert CpfChain(d) == CpfTrim(r3);
    if |d| >= 12 {
      assert r3[..14] == d[..3] + "." + d[3..6] + "." + d[6..9] + "-" + d[9..11];
    } else {
      assert d[9..] == d[9..11];
    }
  }

  /** The output never exceeds the fourteen characters of a full mask. */
  lemma FormatCpfLength(value: string)
    ensures |FormatCpf(value)| <= 14
  {
    CpfChainIsMask(Digits(value));
  }
}
