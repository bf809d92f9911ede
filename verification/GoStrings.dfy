/** The Go library functions on strings that the planner is built from: decimal
    printing and parsing, `strings.Replace` with no limit, `strings.EqualFold`,
    and the facts about them that the credential rewrite needs. */
module GoStrings {

  const MAX_UINT64: nat := 0xFFFF_FFFF_FFFF_FFFF
  const MAX_INT64: int := 0x7FFF_FFFF_FFFF_FFFF
  const MIN_INT64: int := -0x8000_0000_0000_0000

  predicate IsInt64(n: int) {
    MIN_INT64 <= n <= MAX_INT64
  }

  // ------------------------------------------------------------- characters

  const CAPITALS: string := "ABCDEFGHIJKLMNOPQRSTUVWXYZ"
  const LETTERS: string := "abcdefghijklmnopqrstuvwxyz"
  const DIGITS: string := "0123456789"

  lemma LettersAt(i: nat)
    requires i < 26
    ensures |CAPITALS| == |LETTERS| == 26
    ensures CAPITALS[i] == 'A' + i as char && LETTERS[i] == 'a' + i as char
  {
    var a, b := CAPITALS, LETTERS;
    if i < 13 { assert a[..13] == "ABCDEFGHIJKLM" && b[..13] == "abcdefghijklm"; }
    else { assert a[13..] == "NOPQRSTUVWXYZ" && b[13..] == "nopqrstuvwxyz"; }
  }

  lemma DigitsAt(d: nat)
    requires d < 10
    ensures |DIGITS| == 10 && DIGITS[d] == DigitChar(d) && DigitValue(DIGITS[d]) == d
  {
  }

  // ---------------------------------------------------------------- decimal

  predicate IsDigit(c: char) {
    '0' <= c <= '9'
  }

  function DigitChar(d: nat): (c: char)
    requires d < 10
    ensures IsDigit(c) && DigitValue(c) == d
  {
    ('0' as int + d) as char
  }

  function DigitValue(c: char): nat
    requires IsDigit(c)
  {
    c as int - '0' as int
  }

  /** `%d` of a non-negative number. */
  function DecimalNat(n: nat): (s: string)
    ensures |s| > 0 && forall i | 0 <= i < |s| :: IsDigit(s[i])
  {
    if n < 10 then [DigitChar(n)] else DecimalNat(n / 10) + [DigitChar(n % 10)]
  }

  /** `%d`. */
  function Decimal(n: int): (s: string)
    ensures |s| > 0 && ':' !in s
  {
    if n < 0 then "-" + DecimalNat(-n) else DecimalNat(n)
  }

  datatype Parsed = Syntax | Range | Parsed(value: nat)

  /** The digit loop of `strconv.ParseUint`: it stops at the first digit that
      overflows 64 bits, so what follows that digit is never looked at. */
  function ParseUint(s: string, acc: nat): Parsed {
    if s == "" then Parsed(acc)
    else if !IsDigit(s[0]) then Syntax
    else
      var n := 10 * acc + DigitValue(s[0]);
      if n > MAX_UINT64 then Range else ParseUint(s[1..], n)
  }

  /** The number `strconv.Atoi` returns beside its error: 0 for bad syntax, the
      nearest 64-bit value when out of range. */
  function Atoi(s: string): (n: int)
    ensures IsInt64(n)
  {
    var signed := s != "" && (s[0] == '-' || s[0] == '+');
    var negative := s != "" && s[0] == '-';
    var digits := if signed then s[1..] else s;
    if digits == "" then 0
    else match ParseUint(digits, 0)
      case Syntax => 0
      case Range => if negative then MIN_INT64 else MAX_INT64
      case Parsed(v) =>
        var n: int := if negative then 0 - v else v;
        if n < MIN_INT64 then MIN_INT64 else if n > MAX_INT64 then MAX_INT64 else n
  }

  predicate AllDigits(s: string) {
    forall i | 0 <= i < |s| :: IsDigit(s[i])
  }

  function NatValue(s: string): nat
    requires AllDigits(s)
  {
    if s == "" then 0 else 10 * NatValue(s[..|s| - 1]) + DigitValue(s[|s| - 1])
  }

  /** How many digits `s` starts with. */
  function Lead(s: string): (n: nat)
    ensures n <= |s| && AllDigits(s[..n]) && (n < |s| ==> !IsDigit(s[n]))
  {
    if s == "" || !IsDigit(s[0]) then 0 else 1 + Lead(s[1..])
  }

  lemma NextDigit(pre: string, c: char)
    requires AllDigits(pre) && IsDigit(c)
    ensures AllDigits(pre + [c]) && NatValue(pre + [c]) == 10 * NatValue(pre) + DigitValue(c)
  {
    assert (pre + [c])[..|pre|] == pre;
  }

  lemma {:induction false} MoreDigits(pre: string, s: string)
    requires AllDigits(pre) && AllDigits(s)
    ensures NatValue(pre + s) >= NatValue(pre)
    decreases |s|
  {
    if s == "" {
      assert pre + s == pre;
    } else {
      NextDigit(pre, s[0]);
      MoreDigits(pre + [s[0]], s[1..]);
      assert pre + s == pre + [s[0]] + s[1..];
    }
  }

  /** What the digit loop makes of a text: out of range as soon as its leading
      digits are, else the number if there is nothing but digits. */
  lemma {:induction false} ParseFrom(pre: string, s: string)
    requires AllDigits(pre) && NatValue(pre) <= MAX_UINT64
    ensures ParseUint(s, NatValue(pre)) ==
      var v := NatValue(pre + s[..Lead(s)]);
      if v > MAX_UINT64 then Range else if Lead(s) < |s| then Syntax else Parsed(v)
    decreases |s|
  {
    var n := Lead(s);
    if n == 0 {
      assert pre + s[..0] == pre;
    } else {
      hide NatValue;
      NextDigit(pre, s[0]);
      var next := pre + [s[0]];
      assert n == 1 + Lead(s[1..]) && next + s[1..][..n - 1] == pre + s[..n];
      if NatValue(next) > MAX_UINT64 {
        MoreDigits(next, s[1..n]);
        assert next + s[1..n] == pre + s[..n];
      } else {
        ParseFrom(next, s[1..]);
      }
    }
  }

  /** The number a text stands for: with the sign taken off, a text of digits is
      its value, cut to 64 bits; any other text is 0, unless the digits it starts
      with already exceed 64 bits, which counts as out of range. */
  predicate StandsFor(s: string, n: int) {
    var sign := if s != "" && s[0] == '-' then -1 else 1;
    var text := if s != "" && (s[0] == '-' || s[0] == '+') then s[1..] else s;
    var v := NatValue(text[..Lead(text)]);
    n == if text == "" || (Lead(text) < |text| && v <= 18446744073709551615) then 0
         else if sign * v < -9223372036854775808 then -9223372036854775808
         else if sign * v > 9223372036854775807 then 9223372036854775807
         else sign * v
  }

  lemma ParseWhole(s: string)
    ensures var v := NatValue(s[..Lead(s)]);
      ParseUint(s, 0) == if v > MAX_UINT64 then Range else if Lead(s) < |s| then Syntax else Parsed(v)
  {
    hide ParseUint, Lead;
    ParseFrom("", s);
    assert "" + s[..Lead(s)] == s[..Lead(s)];
  }

  lemma AtoiMeaning(s: string)
    ensures StandsFor(s, Atoi(s))
  {
    hide ParseUint, NatValue, Lead;
    ParseWhole(if s != "" && (s[0] == '-' || s[0] == '+') then s[1..] else s);
  }

  lemma {:induction false} ParseDecimalNat(n: nat, rest: string)
    requires n <= MAX_UINT64
    ensures ParseUint(DecimalNat(n) + rest, 0) == ParseUint(rest, n)
  {
    if n < 10 {
      assert (DecimalNat(n) + rest)[1..] == rest;
    } else {
      var last := [DigitChar(n % 10)];
      ParseDecimalNat(n / 10, last + rest);
      assert DecimalNat(n) + rest == DecimalNat(n / 10) + (last + rest);
      assert (last + rest)[1..] == rest;
    }
  }

  /** Parsing undoes printing, for every 64-bit number. */
  lemma {:induction false} AtoiDecimal(n: int)
    requires IsInt64(n)
    ensures Atoi(Decimal(n)) == n
  {
    var m := if n < 0 then -n else n;
    ParseDecimalNat(m, "");
    assert DecimalNat(m) + "" == DecimalNat(m);
    assert n < 0 ==> Decimal(n)[1..] == DecimalNat(m);
    assert IsDigit(DecimalNat(m)[0]);
  }

  lemma {:induction false} DecimalNatValue(n: nat)
    ensures NatValue(DecimalNat(n)) == n
  {
    var s := DecimalNat(n);
    if n < 10 {
      assert s[..0] == "";
    } else {
      DecimalNatValue(n / 10);
      assert s[..|s| - 1] == DecimalNat(n / 10);
    }
  }

  /** A printed number has a sign exactly if it is negative, and then digits without
      needless zeros whose value is the number. */
  lemma {:induction false} DecimalMeaning(n: nat)
    ensures AllDigits(Decimal(n)) && NatValue(Decimal(n)) == n && (n > 0 ==> Decimal(n)[0] != '0')
    ensures Decimal(0) == "0" && (n > 0 ==> Decimal(0 - n) == "-" + Decimal(n))
  {
    DecimalNatValue(n);
    if n >= 10 { DecimalMeaning(n / 10); }
  }

  /** Two numbers print alike only when they are equal (no bound on either). */
  lemma {:induction false} DecimalInjective(m: int, n: int)
    requires Decimal(m) == Decimal(n)
    ensures m == n
  {
    var a, b := if m < 0 then -m else m, if n < 0 then -n else n;
    DecimalNatValue(a);
    DecimalNatValue(b);
    assert IsDigit(DecimalNat(a)[0]) && IsDigit(DecimalNat(b)[0]);
    assert (m < 0) == (n < 0);
    assert m < 0 ==> Decimal(m)[1..] == DecimalNat(a) && Decimal(n)[1..] == DecimalNat(b);
  }

  // ------------------------------------------------------------ substrings

  predicate OccursAt(s: string, sub: string, i: nat) {
    i + |sub| <= |s| && s[i..i + |sub|] == sub
  }

  /** `strings.Contains`. */
  predicate Contains(s: string, sub: string) {
    exists i | 0 <= i <= |s| :: OccursAt(s, sub, i)
  }

  /** `strings.HasPrefix`. */
  predicate HasPrefix(s: string, prefix: string) {
    prefix <= s
  }

  /** `strings.HasSuffix`, used only to state facts. */
  predicate HasSuffix(s: string, suffix: string) {
    |suffix| <= |s| && s[|s| - |suffix|..] == suffix
  }

  /** `strings.Replace(s, old, new, -1)` for a non-empty `old`. */
  function ReplaceAll(s: string, oldText: string, newText: string): string
    requires oldText != ""
    decreases |s|
  {
    if |s| < |oldText| then s
    else if oldText <= s then newText + ReplaceAll(s[|oldText|..], oldText, newText)
    else [s[0]] + ReplaceAll(s[1..], oldText, newText)
  }

  /** The pieces of `s` between the leftmost non-overlapping occurrences of `sep`. */
  function Split(s: string, sep: string): (ps: seq<string>)
    requires sep != ""
    ensures |ps| >= 1
    decreases |s|
  {
    if |s| < |sep| then [s]
    else if sep <= s then [""] + Split(s[|sep|..], sep)
    else var rest := Split(s[1..], sep); [[s[0]] + rest[0]] + rest[1..]
  }

  function Join(ps: seq<string>, sep: string): string
    requires |ps| >= 1
  {
    if |ps| == 1 then ps[0] else ps[0] + sep + Join(ps[1..], sep)
  }

  /** `sep` does not start anywhere inside `p` when `p` is followed by `sep`. */
  predicate NoneBefore(p: string, sep: string) {
    forall j | 0 <= j < |p| :: !OccursAt(p + sep, sep, j)
  }

  /** What makes a division into pieces the leftmost non-overlapping one. */
  predicate LeftmostPieces(ps: seq<string>, sep: string)
    requires |ps| >= 1
  {
    if |ps| == 1 then !Contains(ps[0], sep)
    else NoneBefore(ps[0], sep) && LeftmostPieces(ps[1..], sep)
  }

  lemma OccursInTail(s: string, sub: string, i: nat)
    requires s != ""
    ensures OccursAt(s, sub, i + 1) <==> OccursAt(s[1..], sub, i)
  {
    if i + 1 + |sub| <= |s| {
      assert s[i + 1..i + 1 + |sub|] == s[1..][i..i + |sub|];
    }
  }

  lemma ContainsInTail(s: string, sub: string)
    requires s != "" && Contains(s, sub) && !(sub <= s)
    ensures Contains(s[1..], sub)
  {
    var i :| 0 <= i <= |s| && OccursAt(s, sub, i);
    assert i != 0;
    OccursInTail(s, sub, i - 1);
  }

  lemma NoneBeforeGrows(c: char, p: string, sep: string)
    requires NoneBefore(p, sep) && !OccursAt([c] + p + sep, sep, 0)
    ensures NoneBefore([c] + p, sep)
  {
    forall j | 0 < j < |p| + 1 ensures !OccursAt([c] + p + sep, sep, j) {
      assert ([c] + p + sep)[1..] == p + sep;
      OccursInTail([c] + p + sep, sep, j - 1);
    }
  }

  lemma JoinFirst(p: string, rest: seq<string>, sep: string)
    requires |rest| >= 1
    ensures Join([p] + rest, sep) == p + sep + Join(rest, sep)
  {
    assert ([p] + rest)[1..] == rest;
  }

  lemma JoinLonger(c: string, ps: seq<string>, sep: string)
    requires |ps| >= 1
    ensures Join([c + ps[0]] + ps[1..], sep) == c + Join(ps, sep)
  {
    assert ([c + ps[0]] + ps[1..])[1..] == ps[1..];
    assert |ps| == 1 ==> c + ps[0] == c + Join(ps, sep);
  }

  /** A leftmost division goes on in front of which the separator does not stand. */
  lemma LongerIsLeftmost(s: string, sep: string, ps: seq<string>)
    requires s != "" && !(sep <= s) && |ps| >= 1 && LeftmostPieces(ps, sep) && Join(ps, sep) == s[1..]
    ensures LeftmostPieces([[s[0]] + ps[0]] + ps[1..], sep)
  {
    if |ps| == 1 {
      assert [s[0]] + ps[0] == s;
      if Contains(s, sep) { ContainsInTail(s, sep); }
    } else {
      var head := [s[0]] + ps[0] + sep;
      assert s == head + Join(ps[1..], sep);
      assert head[..|sep|] == s[..|sep|];
      NoneBeforeGrows(s[0], ps[0], sep);
      assert ([[s[0]] + ps[0]] + ps[1..])[1..] == ps[1..];
    }
  }

  lemma {:induction false} SplitIsLeftmost(s: string, sep: string)
    requires sep != ""
    ensures Join(Split(s, sep), sep) == s
    ensures LeftmostPieces(Split(s, sep), sep)
    decreases |s|
  {
    if |s| < |sep| {
    } else if sep <= s {
      var rest := Split(s[|sep|..], sep);
      SplitIsLeftmost(s[|sep|..], sep);
      JoinFirst("", rest, sep);
      assert ([""] + rest)[1..] == rest;
    } else {
      hide LeftmostPieces, Join;
      var rest := Split(s[1..], sep);
      SplitIsLeftmost(s[1..], sep);
      JoinLonger([s[0]], rest, sep);
      LongerIsLeftmost(s, sep, rest);
    }
  }

  lemma {:induction false} SplitNone(s: string, sep: string)
    requires sep != "" && !Contains(s, sep)
    ensures Split(s, sep) == [s]
    decreases |s|
  {
    if |s| >= |sep| {
      assert !OccursAt(s, sep, 0);
      ContainsWithin([s[0]], s[1..], "", sep);
      assert s == [s[0]] + s[1..] + "";
      SplitNone(s[1..], sep);
      assert [s[0]] + s[1..] == s;
    }
  }

  /** A leftmost division whose first piece is not empty, without its first character. */
  lemma ShorterIsLeftmost(ps: seq<string>, sep: string) returns (qs: seq<string>)
    requires sep != "" && |ps| > 1 && LeftmostPieces(ps, sep) && ps[0] != ""
    ensures qs == [ps[0][1..]] + ps[1..] && LeftmostPieces(qs, sep)
    ensures Join(ps, sep) == [ps[0][0]] + Join(qs, sep) && !(sep <= Join(ps, sep)) && |Join(ps, sep)| >= |sep|
  {
    var s := Join(ps, sep);
    qs := [ps[0][1..]] + ps[1..];
    assert qs[1..] == ps[1..] && [ps[0][0]] + qs[0] == ps[0];
    assert (ps[0] + sep)[..|sep|] == s[..|sep|];
    assert !OccursAt(ps[0] + sep, sep, 0);
    forall j | 0 <= j < |qs[0]| ensures !OccursAt(qs[0] + sep, sep, j) {
      assert (ps[0] + sep)[1..] == qs[0] + sep;
      OccursInTail(ps[0] + sep, sep, j);
    }
  }

  /** There is only one leftmost division of a string. */
  lemma {:induction false} LeftmostIsSplit(ps: seq<string>, sep: string)
    requires sep != "" && |ps| >= 1 && LeftmostPieces(ps, sep)
    ensures Split(Join(ps, sep), sep) == ps
    decreases |ps|, |ps[0]|
  {
    var s := Join(ps, sep);
    if |ps| == 1 {
      SplitNone(s, sep);
    } else if ps[0] == "" {
      LeftmostIsSplit(ps[1..], sep);
      assert s[|sep|..] == Join(ps[1..], sep);
    } else {
      hide Join, LeftmostPieces;
      var qs := ShorterIsLeftmost(ps, sep);
      LeftmostIsSplit(qs, sep);
      assert s[1..] == Join(qs, sep);
      assert [s[0]] + qs[0] == ps[0] && qs[1..] == ps[1..];
      assert ps == [[s[0]] + qs[0]] + qs[1..];
    }
  }

  /** Replacement is: divide at the leftmost occurrences of the old text, then
      put the pieces together again around the new text. */
  lemma {:induction false} ReplaceIsSplitJoin(s: string, oldText: string, newText: string)
    requires oldText != ""
    ensures ReplaceAll(s, oldText, newText) == Join(Split(s, oldText), newText)
    decreases |s|
  {
    if |s| < |oldText| {
    } else if oldText <= s {
      var rest := Split(s[|oldText|..], oldText);
      ReplaceIsSplitJoin(s[|oldText|..], oldText, newText);
      assert Split(s, oldText) == [""] + rest;
      JoinFirst("", rest, newText);
    } else {
      var rest := Split(s[1..], oldText);
      ReplaceIsSplitJoin(s[1..], oldText, newText);
      assert Split(s, oldText) == [[s[0]] + rest[0]] + rest[1..];
      JoinLonger([s[0]], rest, newText);
    }
  }

  lemma {:induction false} ReplaceBySelf(s: string, sep: string)
    requires sep != ""
    ensures ReplaceAll(s, sep, sep) == s
  {
    ReplaceIsSplitJoin(s, sep, sep);
    SplitIsLeftmost(s, sep);
  }

  lemma {:induction false} ReplaceNone(s: string, oldText: string, newText: string)
    requires oldText != "" && !Contains(s, oldText)
    ensures ReplaceAll(s, oldText, newText) == s
  {
    ReplaceIsSplitJoin(s, oldText, newText);
    SplitNone(s, oldText);
  }

  lemma {:induction false} ReplaceGrows(s: string, oldText: string, newText: string)
    requires oldText != "" && |newText| > |oldText|
    ensures |ReplaceAll(s, oldText, newText)| >= |s|
    ensures Contains(s, oldText) ==> |ReplaceAll(s, oldText, newText)| > |s|
    decreases |s|
  {
    if |s| < |oldText| {
    } else if oldText <= s {
      ReplaceGrows(s[|oldText|..], oldText, newText);
    } else {
      ReplaceGrows(s[1..], oldText, newText);
      if Contains(s, oldText) { ContainsInTail(s, oldText); }
    }
  }

  lemma ContainsSplits(s: string, sep: string)
    requires sep != "" && Contains(s, sep)
    ensures |Split(s, sep)| > 1
  {
    hide Split, Contains;
    SplitIsLeftmost(s, sep);
  }

  lemma ContainsItself(before: string, t: string, after: string)
    ensures Contains(before + t + after, t)
  {
    assert OccursAt(t, t, 0);
    ContainsWithin(before, t, after, t);
  }

  /** A replacement by a text that ends in `t` leaves `t` in a string exactly if
      the string held it or the text replaced. */
  lemma ReplaceLeavesIff(s: string, oldText: string, prefix: string, t: string)
    requires oldText != ""
    ensures Contains(ReplaceAll(s, oldText, prefix + t), t) <==> Contains(s, oldText) || Contains(s, t)
  {
    hide Contains, Split, ReplaceAll;
    if Contains(s, oldText) {
      var ps, newText := Split(s, oldText), prefix + t;
      ContainsSplits(s, oldText);
      ReplaceIsSplitJoin(s, oldText, newText);
      var tail := Join(ps[1..], newText);
      ContainsItself(ps[0] + prefix, t, tail);
      assert Join(ps, newText) == ps[0] + newText + tail == ps[0] + prefix + t + tail;
    } else {
      ReplaceNone(s, oldText, prefix + t);
    }
  }

  // --------------------------------------------------- undoing a replacement

  /** Some proper non-empty prefix of `w` is also a suffix of it. */
  predicate HasBorder(w: string) {
    exists n | 0 < n < |w| :: HasSuffix(w, w[..n])
  }

  /** An occurrence of `w` in `p + w` that starts in `p` lies in `p`, or shows a border. */
  lemma OccursAcross(p: string, w: string, j: nat)
    requires j < |p| && OccursAt(p + w, w, j)
    ensures Contains(p, w) || HasBorder(w)
  {
    if j + |w| <= |p| {
      assert p[j..j + |w|] == (p + w)[j..j + |w|];
      assert OccursAt(p, w, j);
    } else {
      var n := j + |w| - |p|;
      assert w[..n] == (p + w)[|p|..j + |w|] == w[|w| - n..];
      assert HasSuffix(w, w[..n]);
    }
  }

  lemma PieceHasNone(p: string, w: string)
    requires !HasBorder(w) && !Contains(p, w)
    ensures NoneBefore(p, w)
  {
    forall j | 0 <= j < |p| ensures !OccursAt(p + w, w, j) {
      if OccursAt(p + w, w, j) { OccursAcross(p, w, j); }
    }
  }

  lemma ContainsWithin(before: string, s: string, after: string, w: string)
    ensures Contains(s, w) ==> Contains(before + s + after, w)
  {
    if Contains(s, w) {
      var i :| 0 <= i <= |s| && OccursAt(s, w, i);
      var whole, at := before + s + after, |before| + i;
      assert whole[at..at + |w|] == s[i..i + |w|];
      assert OccursAt(whole, w, at);
    }
  }

  lemma {:induction false} PiecesHaveNone(ps: seq<string>, sep: string, w: string)
    requires |ps| >= 1 && w != "" && !HasBorder(w) && !Contains(Join(ps, sep), w)
    ensures LeftmostPieces(ps, w)
  {
    if |ps| > 1 {
      var s, tail := Join(ps, sep), Join(ps[1..], sep);
      ContainsWithin("", ps[0], sep + tail, w);
      ContainsWithin(ps[0] + sep, tail, "", w);
      assert s == "" + ps[0] + (sep + tail) == ps[0] + sep + tail + "";
      PieceHasNone(ps[0], w);
      PiecesHaveNone(ps[1..], sep, w);
    }
  }

  /** A replacement by a border-free text that was not there before can be undone. */
  lemma {:induction false} ReplaceRoundTrip(s: string, oldText: string, newText: string)
    requires oldText != "" && newText != ""
    requires !HasBorder(newText) && !Contains(s, newText)
    ensures ReplaceAll(ReplaceAll(s, oldText, newText), newText, oldText) == s
  {
    var ps := Split(s, oldText);
    SplitIsLeftmost(s, oldText);
    ReplaceIsSplitJoin(s, oldText, newText);
    PiecesHaveNone(ps, oldText, newText);
    LeftmostIsSplit(ps, newText);
    ReplaceIsSplitJoin(Join(ps, newText), newText, oldText);
  }

  // ------------------------------------------------ telling replacements apart

  /** How many times `ReplaceAll` puts in the new text. */
  function Count(s: string, oldText: string): nat
    requires oldText != ""
    decreases |s|
  {
    if |s| < |oldText| then 0
    else if oldText <= s then 1 + Count(s[|oldText|..], oldText)
    else Count(s[1..], oldText)
  }

  lemma {:induction false} ReplaceLength(s: string, oldText: string, newText: string)
    requires oldText != ""
    ensures Count(s, oldText) * |oldText| <= |s|
    ensures |ReplaceAll(s, oldText, newText)| == |s| - Count(s, oldText) * |oldText| + Count(s, oldText) * |newText|
    decreases |s|
  {
    if |s| >= |oldText| {
      if oldText <= s {
        var rest := s[|oldText|..];
        ReplaceLength(rest, oldText, newText);
        assert (1 + Count(rest, oldText)) * |oldText| == |oldText| + Count(rest, oldText) * |oldText|;
        assert (1 + Count(rest, oldText)) * |newText| == |newText| + Count(rest, oldText) * |newText|;
      } else {
        ReplaceLength(s[1..], oldText, newText);
      }
    }
  }

  /** A text whose first character does not come again among the next `n`. */
  predicate Marked(w: string, n: nat) {
    |w| > n && forall j | 0 < j <= n :: w[j] != w[0]
  }

  /** Where the new text is put in first. */
  lemma {:induction false} FirstPut(s: string, oldText: string, newText: string) returns (i: nat)
    requires oldText != "" && Contains(s, oldText)
    ensures i <= |s| && (i == 0 <==> oldText <= s)
    ensures var r := ReplaceAll(s, oldText, newText); i <= |r| && newText <= r[i..]
    decreases |s|
  {
    if oldText <= s {
      i := 0;
    } else {
      ContainsInTail(s, oldText);
      i := FirstPut(s[1..], oldText, newText);
      i := i + 1;
      assert ReplaceAll(s, oldText, newText)[i..] == ReplaceAll(s[1..], oldText, newText)[i - 1..];
    }
  }

  lemma PutsLater(s: string, oldText: string, newText: string)
    requires oldText != "" && Marked(newText, |s|) && !(oldText <= s)
    ensures !(newText <= ReplaceAll(s, oldText, newText))
  {
    hide ReplaceAll, Contains;
    var r := ReplaceAll(s, oldText, newText);
    if Contains(s, oldText) {
      var i := FirstPut(s, oldText, newText);
      assert r[i] == r[i..][0] == newText[0] != newText[i];
    } else {
      ReplaceNone(s, oldText, newText);
    }
  }

  /** Two texts of one length, one of which occurs, are told apart by a marked
      new text: they start at different places. */
  lemma {:induction false} SameLengthDiffer(s: string, a: string, b: string, newText: string)
    requires a != "" && |a| == |b| && a != b && Marked(newText, |s|) && Contains(s, a)
    ensures ReplaceAll(s, a, newText) != ReplaceAll(s, b, newText)
    decreases |s|
  {
    if a <= s {
      assert !(b <= s);
      PutsLater(s, b, newText);
    } else if b <= s {
      PutsLater(s, a, newText);
    } else {
      ContainsInTail(s, a);
      SameLengthDiffer(s[1..], a, b, newText);
      assert ReplaceAll(s, a, newText)[1..] == ReplaceAll(s[1..], a, newText);
      assert ReplaceAll(s, b, newText)[1..] == ReplaceAll(s[1..], b, newText);
    }
  }

  lemma {:induction false} TimesMore(k: nat, l: nat, n: nat)
    requires k > l
    ensures k * n >= l * n + n
  {
    assert k * n == (k - 1) * n + n;
    if k > l + 1 { TimesMore(k - 1, l, n); }
  }

  lemma TimesInjective(k: nat, a: nat, b: nat)
    requires k > 0 && k * a == k * b
    ensures a == b
  {
    if a < b { TimesMore(b, a, k); }
    if b < a { TimesMore(a, b, k); }
  }

  lemma SameProducts(k: nat, l: nat, a: nat, b: nat, n: nat, bound: nat)
    requires n > bound && k > 0 && k * a <= bound && l * b <= bound
    requires k * n - k * a == l * n - l * b
    ensures a == b
  {
    if k > l { TimesMore(k, l, n); }
    if l > k { TimesMore(l, k, n); }
    TimesInjective(k, a, b);
  }

  /** Replacing different texts by a marked one gives different results as soon as
      the first occurs. */
  lemma ReplacementsDiffer(s: string, a: string, b: string, newText: string)
    requires a != "" && b != "" && a != b && Contains(s, a) && Marked(newText, |s|)
    ensures ReplaceAll(s, a, newText) != ReplaceAll(s, b, newText)
  {
    hide ReplaceAll, Contains, Count;
    ReplaceLength(s, a, newText);
    ReplaceLength(s, b, newText);
    var i := FirstPut(s, a, newText);
    assert |ReplaceAll(s, a, newText)| >= |newText|;
    if ReplaceAll(s, a, newText) == ReplaceAll(s, b, newText) {
      SameProducts(Count(s, a), Count(s, b), |a|, |b|, |newText|, |s|);
      SameLengthDiffer(s, a, b, newText);
    }
  }

  // ------------------------------------------------------------ case folding

  /** The member of `c`'s simple-folding orbit that is compared. The long s and
      the Kelvin sign are the only characters outside ASCII that fold to an
      ASCII letter, so this is exact against an ASCII key. */
  function FoldChar(c: char): char {
    if 'A' <= c <= 'Z' then (c as int + 32) as char
    else if c == '\U{017F}' then 's'
    else if c == '\U{212A}' then 'k'
    else c
  }

  /** `strings.EqualFold(k, key)` for an ASCII `key`. */
  predicate EqualFold(k: string, key: string) {
    |k| == |key| && forall i | 0 <= i < |k| :: FoldChar(k[i]) == FoldChar(key[i])
  }

  /** `c` is the character `d` of a key, as a capital, or a special letter that folds to it. */
  predicate FoldsTo(c: char, d: char) {
    || c == d || (exists i | 0 <= i < 26 :: c == CAPITALS[i] && d == LETTERS[i])
    || (c == '\U{017F}' && d == 's') || (c == '\U{212A}' && d == 'k')
  }

  /** Keys are spelled in small letters, digits and underscores. */
  predicate IsKeyChar(d: char) {
    d in LETTERS || d in DIGITS || d == '_'
  }

  lemma KeyCharIs(d: char)
    requires IsKeyChar(d)
    ensures 'a' <= d <= 'z' || '0' <= d <= '9' || d == '_'
  {
    if d in LETTERS {
      var i :| 0 <= i < |LETTERS| && LETTERS[i] == d;
      LettersAt(i);
    } else if d in DIGITS {
      var i :| 0 <= i < |DIGITS| && DIGITS[i] == d;
      DigitsAt(i);
    }
  }

  lemma FoldsToIff(c: char, d: char)
    requires IsKeyChar(d)
    ensures FoldChar(c) == FoldChar(d) <==> FoldsTo(c, d)
  {
    hide IsKeyChar;
    KeyCharIs(d);
    CapitalIs(c, d);
  }

  lemma CapitalIs(c: char, d: char)
    ensures (exists i | 0 <= i < 26 :: c == CAPITALS[i] && d == LETTERS[i]) <==>
            'A' <= c <= 'Z' && d == (c as int + 32) as char
  {
    forall i | 0 <= i < 26 ensures CAPITALS[i] == 'A' + i as char && LETTERS[i] == 'a' + i as char { LettersAt(i); }
    if 'A' <= c <= 'Z' {
      var i := c as int - 'A' as int;
      assert CAPITALS[i] == c && LETTERS[i] == (c as int + 32) as char;
    }
  }

  /** Two texts are folded together exactly if they have the same length and every
      character is that of the key, its capital, or the long s or Kelvin sign. */
  lemma EqualFoldIff(k: string, key: string)
    requires forall d | d in key :: IsKeyChar(d)
    ensures EqualFold(k, key) <==> |k| == |key| && forall i | 0 <= i < |k| :: FoldsTo(k[i], key[i])
  {
    hide FoldChar, FoldsTo, IsKeyChar;
    if |k| == |key| {
      forall i | 0 <= i < |k| ensures FoldChar(k[i]) == FoldChar(key[i]) <==> FoldsTo(k[i], key[i]) {
        assert key[i] in key;
        FoldsToIff(k[i], key[i]);
      }
    }
  }

  /** `strings.ToLower` on the ASCII letters. */
  function ToLower(s: string): (t: string) {
    seq(|s|, i requires 0 <= i < |s| =>
      if 'A' <= s[i] <= 'Z' then (s[i] as int + 32) as char else s[i])
  }

  /** The text holds these letters at `i`, each small or capital. */
  predicate HoldsAt(s: string, small: string, capital: string, i: nat)
    requires |small| == |capital|
  {
    i + |small| <= |s| && forall j | 0 <= j < |small| :: s[i + j] == small[j] || s[i + j] == capital[j]
  }

  /** "ssl=true" is asked for exactly if it stands somewhere, in capitals or not. */
  lemma HoldsSSLIff(s: string)
    ensures Contains(ToLower(s), "ssl=true") <==> exists i: nat :: HoldsAt(s, "ssl=true", "SSL=TRUE", i)
  {
    var small, capital, t := "ssl=true", "SSL=TRUE", ToLower(s);
    forall j | 0 <= j < 8 ensures SmallOf(capital[j]) == small[j] == SmallOf(small[j]) { SSLLetters(j); }
    forall i: nat ensures OccursAt(t, small, i) <==> HoldsAt(s, small, capital, i) {
      if i + 8 <= |s| {
        if OccursAt(t, small, i) {
          forall j | 0 <= j < 8 ensures s[i + j] == small[j] || s[i + j] == capital[j] {
            assert t[i..i + 8][j] == t[i + j] == SmallOf(s[i + j]);
            SSLLetters(j);
          }
        }
        if HoldsAt(s, small, capital, i) {
          forall j | 0 <= j < 8 ensures t[i + j] == small[j] { assert t[i + j] == SmallOf(s[i + j]); }
          assert t[i..i + 8] == small;
        }
      }
    }
  }

  function SmallOf(c: char): char {
    if 'A' <= c <= 'Z' then (c as int + 32) as char else c
  }

  lemma SSLLetters(j: nat)
    requires j < 8
    ensures SmallOf("SSL=TRUE"[j]) == "ssl=true"[j] == SmallOf("ssl=true"[j])
    ensures forall c | SmallOf(c) == "ssl=true"[j] :: c == "ssl=true"[j] || c == "SSL=TRUE"[j]
  {
  }

  // -------------------------------------------------------------- ordering

  /** How `sort.Strings` compares. */
  predicate Less(a: string, b: string) {
    b != "" && (a == "" || a[0] < b[0] || (a[0] == b[0] && Less(a[1..], b[1..])))
  }

  /** A proper prefix comes first; otherwise the first difference decides, and the
      smaller character comes first. */
  predicate SortsBefore(a: string, b: string) {
    a < b || exists i | 0 <= i < |a| && i < |b| :: DiffersAt(a, b, i) && a[i] < b[i]
  }

  /** The texts agree up to here, where they differ. */
  predicate DiffersAt(a: string, b: string, i: nat) {
    i < |a| && i < |b| && a[..i] == b[..i] && a[i] != b[i]
  }

  lemma DiffersLater(a: string, b: string, i: nat)
    requires a != "" && b != "" && a[0] == b[0]
    ensures DiffersAt(a, b, i + 1) <==> DiffersAt(a[1..], b[1..], i)
  {
    if i + 1 < |a| && i + 1 < |b| {
      assert a[..i + 1] == [a[0]] + a[1..][..i] && b[..i + 1] == [b[0]] + b[1..][..i];
    }
  }

  lemma {:induction false} LessIff(a: string, b: string)
    ensures Less(a, b) <==> SortsBefore(a, b)
  {
    if a != "" && b != "" {
      if a[0] == b[0] {
        LessIff(a[1..], b[1..]);
        assert a < b <==> a[1..] < b[1..] by {
          assert a == [a[0]] + a[1..] && b == [b[0]] + b[1..];
        }
        assert !DiffersAt(a, b, 0);
        forall i: nat ensures DiffersAt(a, b, i + 1) <==> DiffersAt(a[1..], b[1..], i) { DiffersLater(a, b, i); }
        if i: nat :| DiffersAt(a[1..], b[1..], i) && a[1..][i] < b[1..][i] { assert DiffersAt(a, b, i + 1); }
        if i: nat :| DiffersAt(a, b, i) && a[i] < b[i] { assert DiffersAt(a[1..], b[1..], i - 1); }
      } else {
        assert DiffersAt(a, b, 0);
        assert forall i: nat | DiffersAt(a, b, i) :: i == 0;
      }
    }
  }

  /** The service types of conduit, a longer name and a capital letter. */
  lemma SortedTypes()
    ensures StrictlySorted(["Redis", "influxdb", "mysql", "postgres", "redis", "redis-2"])
  {
    assert Less("Redis", "influxdb") && Less("influxdb", "mysql") && Less("mysql", "postgres");
    assert "postgres"[0] < "redis"[0] && Less("postgres", "redis");
    assert "redis" < "redis-2";
    LessIff("redis", "redis-2");
    AdjacentlySorted(["Redis", "influxdb", "mysql", "postgres", "redis", "redis-2"]);
  }

  lemma {:induction false} AdjacentlySorted(s: seq<string>)
    requires forall i | 0 <= i < |s| - 1 :: Less(s[i], s[i + 1])
    ensures StrictlySorted(s)
  {
    if |s| > 1 {
      AdjacentlySorted(s[1..]);
      assert Less(s[0], s[0 + 1]);
      forall j | 1 < j < |s| ensures Less(s[0], s[j]) {
        assert Less(s[1..][0], s[1..][j - 1]);
        LessTransitive(s[0], s[1], s[j]);
      }
      assert forall i, j | 0 < i < j < |s| :: s[i] == s[1..][i - 1] && s[j] == s[1..][j - 1];
    }
  }

  lemma {:induction false} LessTransitive(a: string, b: string, c: string)
    requires Less(a, b) && Less(b, c)
    ensures Less(a, c)
  {
    if a != "" && a[0] == b[0] && b[0] == c[0] {
      LessTransitive(a[1..], b[1..], c[1..]);
    }
  }

  lemma {:induction false} LessTotal(a: string, b: string)
    ensures a == b || Less(a, b) || Less(b, a)
  {
    if a != "" && b != "" && a[0] == b[0] {
      LessTotal(a[1..], b[1..]);
      assert a == [a[0]] + a[1..] && b == [b[0]] + b[1..];
    }
  }

  lemma {:induction false} LessIrreflexive(a: string)
    ensures !Less(a, a)
  {
    if a != "" { LessIrreflexive(a[1..]); }
  }

  predicate StrictlySorted(s: seq<string>) {
    forall i, j | 0 <= i < j < |s| :: Less(s[i], s[j])
  }
}
