/** The string primitives on which the stores, the projector, the coordinator
    and the runtime merge rely: trimming, ordering and decimal numbers. */
module Text {

  /** White space as Go's unicode package defines it. */
  predicate IsSpace(c: char) {
    || c in {'\t', '\n', '\U{000B}', '\U{000C}', '\r', ' ', '\U{0085}', '\U{00A0}'}
    || c == '\U{1680}'
    || '\U{2000}' <= c <= '\U{200A}'
    || c in {'\U{2028}', '\U{2029}', '\U{202F}', '\U{205F}', '\U{3000}'}
  }

  function TrimLeft(s: string): (r: string) {
    if s == "" || !IsSpace(s[0]) then s else TrimLeft(s[1..])
  }

  function TrimRight(s: string): (r: string) {
    if s == "" || !IsSpace(s[|s| - 1]) then s else TrimRight(s[..|s| - 1])
  }

  /** strings.TrimSpace. */
  function TrimSpace(s: string): (r: string) {
    TrimRight(TrimLeft(s))
  }

  lemma {:induction false} TrimLeftEdge(s: string)
    ensures TrimLeft(s) == "" || !IsSpace(TrimLeft(s)[0])
  {
    if s != "" && IsSpace(s[0]) {
      TrimLeftEdge(s[1..]);
    }
  }

  lemma {:induction false} TrimRightEdge(s: string)
    ensures TrimRight(s) <= s
    ensures TrimRight(s) == "" || !IsSpace(TrimRight(s)[|TrimRight(s)| - 1])
  {
    if s != "" && IsSpace(s[|s| - 1]) {
      TrimRightEdge(s[..|s| - 1]);
    }
  }

  /** Trimming twice is trimming once. */
  lemma {:induction false} TrimIdempotent(s: string)
    ensures TrimSpace(TrimSpace(s)) == TrimSpace(s)
  {
    var l := TrimLeft(s);
    TrimLeftEdge(s);
    TrimRightEdge(l);
  }

  /** The code points with Unicode's White_Space property. */
  lemma SpaceCodes(c: char)
    ensures IsSpace(c) <==>
              || 9 <= c as int <= 13 || c as int in {32, 133, 160, 5760, 8232, 8233, 8239, 8287, 12288}
              || 8192 <= c as int <= 8202
  {
  }

  ghost predicate AllSpace(s: string) {
    forall i | 0 <= i < |s| :: IsSpace(s[i])
  }

  lemma {:induction false} TrimLeftSplits(s: string) returns (front: string)
    ensures s == front + TrimLeft(s) && AllSpace(front)
  {
    if s != "" && IsSpace(s[0]) {
      var rest := TrimLeftSplits(s[1..]);
      front := [s[0]] + rest;
    } else {
      front := "";
    }
  }

  lemma {:induction false} TrimRightSplits(s: string) returns (back: string)
    ensures s == TrimRight(s) + back && AllSpace(back)
  {
    if s != "" && IsSpace(s[|s| - 1]) {
      var rest := TrimRightSplits(s[..|s| - 1]);
      back := rest + [s[|s| - 1]];
    } else {
      back := "";
    }
  }

  /** Trimming cuts off white space on both sides, and all of it. */
  lemma TrimMeaning(s: string) returns (front: string, back: string)
    ensures s == front + TrimSpace(s) + back && AllSpace(front) && AllSpace(back)
    ensures var t := TrimSpace(s); t != "" ==> !IsSpace(t[0]) && !IsSpace(t[|t| - 1])
  {
    TrimLeftEdge(s);
    TrimRightEdge(TrimLeft(s));
    front := TrimLeftSplits(s);
    back := TrimRightSplits(TrimLeft(s));
  }

  /** Go's string order; byte order of UTF-8 is code point order. */
  predicate Less(a: string, b: string) {
    b != "" && (a == "" || a[0] < b[0] || (a[0] == b[0] && Less(a[1..], b[1..])))
  }

  /** The two texts agree up to i, where the first has the smaller character. */
  ghost predicate SmallerAt(a: string, b: string, i: int) {
    0 <= i < |a| && i < |b| && a[..i] == b[..i] && a[i] < b[i]
  }

  /** A text comes before another when it is a proper prefix of it or has the
      smaller character where they first differ. */
  lemma {:induction false} LessMeaning(a: string, b: string)
    ensures Less(a, b) <==> a < b || exists i :: SmallerAt(a, b, i)
  {
    if a == "" || b == "" {
    } else if a[0] != b[0] {
      assert a[0] < b[0] ==> SmallerAt(a, b, 0);
      assert forall i | SmallerAt(a, b, i) && i > 0 :: a[..i][0] == b[..i][0];
    } else {
      LessMeaning(a[1..], b[1..]);
      assert a == [a[0]] + a[1..] && b == [b[0]] + b[1..];
      if i :| SmallerAt(a[1..], b[1..], i) {
        assert a[..i + 1] == [a[0]] + a[1..][..i] && b[..i + 1] == [b[0]] + b[1..][..i];
        assert SmallerAt(a, b, i + 1);
      }
      if i :| SmallerAt(a, b, i) {
        assert a[1..][..i - 1] == a[..i][1..] && b[1..][..i - 1] == b[..i][1..];
        assert SmallerAt(a[1..], b[1..], i - 1);
      }
    }
  }

  lemma {:induction false} LessIrreflexive(a: string)
    ensures !Less(a, a)
  {
    if a != "" {
      LessIrreflexive(a[1..]);
    }
  }

  lemma {:induction false} LessTransitive(a: string, b: string, c: string)
    requires Less(a, b) && Less(b, c)
    ensures Less(a, c)
  {
    if a != "" && a[0] == b[0] && b[0] == c[0] {
      LessTransitive(a[1..], b[1..], c[1..]);
    }
  }

  lemma {:induction false} LessTotal(a: string, b: string)
    ensures a == b || Less(a, b) || Less(b, a)
  {
    if a != "" && b != "" && a[0] == b[0] {
      LessTotal(a[1..], b[1..]);
      assert a == [a[0]] + a[1..] && b == [b[0]] + b[1..];
    }
  }

  // ----- Decimal numbers -----

  predicate Digital(s: string) {
    forall i | 0 <= i < |s| :: '0' <= s[i] <= '9'
  }

  predicate Decimal(s: string) {
    s != "" && Digital(s)
  }

  function Magnitude(s: string): nat
    requires Digital(s)
  {
    if s == "" then 0
    else
      var digit: nat := s[|s| - 1] as int - '0' as int;
      Magnitude(s[..|s| - 1]) * 10 + digit
  }

  /** A number as fmt prints it. */
  function Digits(n: nat): (s: string)
    ensures Decimal(s)
  {
    var digit := [('0' as int + n % 10) as char];
    if n < 10 then digit else Digits(n / 10) + digit
  }

  lemma {:induction false} MagnitudeOfDigits(n: nat)
    ensures Magnitude(Digits(n)) == n
  {
    var s := Digits(n);
    var digit := ('0' as int + n % 10) as char;
    if n < 10 {
      assert s == [digit] && s[..|s| - 1] == "";
    } else {
      MagnitudeOfDigits(n / 10);
      assert s == Digits(n / 10) + [digit] && s[..|s| - 1] == Digits(n / 10);
    }
  }

  /** A decimal number without a leading zero. */
  predicate Plain(s: string) {
    Decimal(s) && (s[0] == '0' ==> |s| == 1)
  }

  lemma {:induction false} DigitsArePlain(n: nat)
    ensures Plain(Digits(n))
  {
    if n >= 10 {
      DigitsArePlain(n / 10);
      MagnitudeOfDigits(n / 10);
      MagnitudeOfDigits(0);
    }
  }

  lemma {:induction false} LeadingDigitCounts(s: string)
    requires Decimal(s) && s[0] != '0'
    ensures Magnitude(s) > 0
  {
    if |s| > 1 {
      LeadingDigitCounts(s[..|s| - 1]);
    }
  }

  /** A number has one decimal notation without leading zeros. */
  lemma {:induction false} PlainIsDigits(s: string)
    requires Plain(s)
    ensures s == Digits(Magnitude(s))
  {
    var init, last := s[..|s| - 1], s[|s| - 1];
    assert s == init + [last];
    if init == "" {
      assert s == [last];
    } else {
      PlainIsDigits(init);
      LeadingDigitCounts(init);
      var ones := last as int - '0' as int;
      assert Magnitude(s) == Magnitude(init) * 10 + ones;
      assert Magnitude(s) / 10 == Magnitude(init) && Magnitude(s) % 10 == ones;
    }
  }

  /** Decimal notation: the last digit counts ones and what precedes it tens,
      and each digit its distance from '0'. */
  lemma MagnitudeUnfolds(s: string, c: char)
    requires Digital(s) && '0' <= c <= '9'
    ensures Digital([c]) && Digital(s + [c])
    ensures Magnitude([c]) == c as int - 48
    ensures Magnitude(s + [c]) == 10 * Magnitude(s) + Magnitude([c])
  {
    assert [c][..0] == "" && (s + [c])[..|s|] == s;
  }

  /** The text is the last of these that is not empty, if there is one. */
  ghost predicate LastNonEmpty(texts: seq<string>, text: string) {
    if text == "" then forall i | 0 <= i < |texts| :: texts[i] == ""
    else exists i :: LastNonEmptyAt(texts, text, i)
  }

  ghost predicate LastNonEmptyAt(texts: seq<string>, text: string, i: int) {
    0 <= i < |texts| && texts[i] == text && forall j | i < j < |texts| :: texts[j] == ""
  }

  lemma LastNonEmptyAppend(texts: seq<string>, text: string, next: string)
    requires LastNonEmpty(texts, text)
    ensures LastNonEmpty(texts + [next], OrElse(next, text))
  {
    var longer := texts + [next];
    if next != "" {
      assert LastNonEmptyAt(longer, next, |texts|);
    } else if text != "" {
      var i :| LastNonEmptyAt(texts, text, i);
      assert LastNonEmptyAt(longer, text, i);
    }
  }

  /** The first of two texts, unless it is empty. */
  function OrElse(a: string, b: string): string {
    if a != "" then a else b
  }

  ghost predicate Distinct(texts: seq<string>) {
    forall i, j | 0 <= i < j < |texts| :: texts[i] != texts[j]
  }
}
