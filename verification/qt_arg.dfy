/**
  QString::arg(a): the place marker with the lowest number in the string is
  found, and every occurrence of it is replaced by `a`; without any marker
  the string is returned unchanged. A marker is '%' followed by one or two
  decimal digits. The text substituted in is not scanned again by this call,
  but it is by the next `.arg` of a chain.
 */
module QtArg {
  import opened Common
  import opened Text

  /** A place marker at the head of a string: its number and how many characters it spans. */
  datatype Marker = Marker(number: nat, length: nat)

  function LeadingMarker(s: string): (m: Option<Marker>)
    ensures m.Some? ==> 2 <= m.value.length <= 3 && m.value.length <= |s|
    ensures s == [] || s[0] != '%' ==> m.None?
  {
    if |s| >= 2 && s[0] == '%' && IsDigit(s[1]) then
      if |s| >= 3 && IsDigit(s[2]) then Some(Marker(10 * DigitValue(s[1]) + DigitValue(s[2]), 3))
      else Some(Marker(DigitValue(s[1]), 2))
    else None
  }

  function MinOpt(a: nat, b: Option<nat>): nat {
    if b.Some? && b.value < a then b.value else a
  }

  /** Number of the lowest place marker in `s`, scanning left to right. */
  function LowestMarker(s: string): (r: Option<nat>)
    ensures '%' !in s ==> r.None?
    decreases |s|
  {
    if |s| == 0 then None
    else match LeadingMarker(s)
      case Some(m) =>
        assert '%' in s by { assert s[0] == '%'; }
        Some(MinOpt(m.number, LowestMarker(s[m.length..])))
      case None =>
        assert '%' !in s ==> '%' !in s[1..] by {
          forall i | 0 <= i < |s[1..]| ensures s[1..][i] == s[i + 1] { }
        }
        LowestMarker(s[1..])
  }

  /** Replaces each place marker numbered `k` by `a`; all other text is kept. */
  function ReplaceMarker(s: string, k: nat, a: string): (r: string)
    decreases |s|
  {
    if |s| == 0 then []
    else match LeadingMarker(s)
      case Some(m) =>
        (if m.number == k then a else s[..m.length]) + ReplaceMarker(s[m.length..], k, a)
      case None =>
        [s[0]] + ReplaceMarker(s[1..], k, a)
  }

  /** QString::arg(const QString &a). */
  function Arg(s: string, a: string): (r: string)
    ensures '%' !in s ==> r == s
  {
    match LowestMarker(s)
    case None => s
    case Some(k) => ReplaceMarker(s, k, a)
  }

  lemma NoPercentTail(x: string)
    requires '%' !in x && |x| > 0
    ensures '%' !in x[1..]
  {
    forall i | 0 <= i < |x[1..]| ensures x[1..][i] == x[i + 1] { }
  }

  /** A '%'-free prefix holds no marker, so the lowest marker is found in the rest. */
  lemma {:induction false} LowestAfterPlainPrefix(x: string, y: string)
    requires '%' !in x
    ensures LowestMarker(x + y) == LowestMarker(y)
    decreases |x|
  {
    if |x| == 0 {
      assert x + y == y;
    } else {
      var s := x + y;
      assert s[0] == x[0] && s[0] != '%';
      assert LeadingMarker(s).None?;
      assert s[1..] == x[1..] + y;
      NoPercentTail(x);
      LowestAfterPlainPrefix(x[1..], y);
    }
  }

  /** A head character that is not '%' is copied and the scan moves on. */
  lemma ReplaceAfterPlainChar(s: string, k: nat, a: string)
    requires |s| > 0 && s[0] != '%'
    ensures ReplaceMarker(s, k, a) == [s[0]] + ReplaceMarker(s[1..], k, a)
  {
    assert LeadingMarker(s).None?;
  }

  /** Replacing markers keeps a '%'-free prefix as it is. */
  lemma {:induction false} ReplaceAfterPlainPrefix(x: string, y: string, k: nat, a: string)
    requires '%' !in x
    ensures ReplaceMarker(x + y, k, a) == x + ReplaceMarker(y, k, a)
    decreases |x|
  {
    if |x| == 0 {
      assert x + y == y;
    } else {
      var s := x + y;
      var rest := ReplaceMarker(y, k, a);
      assert s[0] == x[0] && s[1..] == x[1..] + y;
      ReplaceAfterPlainChar(s, k, a);
      NoPercentTail(x);
      ReplaceAfterPlainPrefix(x[1..], y, k, a);
      assert x == [x[0]] + x[1..];
    }
  }

  /** `Arg` leaves a '%'-free prefix alone and works on the rest. */
  lemma ArgPlainPrefix(x: string, y: string, a: string)
    requires '%' !in x
    ensures Arg(x + y, a) == x + Arg(y, a)
  {
    LowestAfterPlainPrefix(x, y);
    match LowestMarker(y)
    case None =>
    case Some(n) => ReplaceAfterPlainPrefix(x, y, n, a);
  }

  /** A one-digit marker at the head, followed by something that is not a digit. */
  lemma MarkerHead(d: char, y: string, k: nat, a: string)
    requires IsDigit(d)
    requires y == [] || !IsDigit(y[0])
    ensures LowestMarker(['%', d] + y) == Some(MinOpt(DigitValue(d), LowestMarker(y)))
    ensures ReplaceMarker(['%', d] + y, k, a)
            == (if DigitValue(d) == k then a else ['%', d]) + ReplaceMarker(y, k, a)
  {
    var s := ['%', d] + y;
    assert s[0] == '%' && s[1] == d;
    assert |s| >= 3 ==> s[2] == y[0];
    assert LeadingMarker(s) == Some(Marker(DigitValue(d), 2));
    assert s[2..] == y;
    assert s[..2] == ['%', d];
  }

  /** Markers numbered below every marker of `s` do not occur, so nothing is replaced. */
  lemma {:induction false} ReplaceAbsentMarker(s: string, k: nat, a: string)
    requires LowestMarker(s).None? || k < LowestMarker(s).value
    ensures ReplaceMarker(s, k, a) == s
    decreases |s|
  {
    if |s| > 0 {
      match LeadingMarker(s)
      case Some(m) =>
        assert m.number != k;
        ReplaceAbsentMarker(s[m.length..], k, a);
        assert s == s[..m.length] + s[m.length..];
      case None =>
        ReplaceAbsentMarker(s[1..], k, a);
        assert s == [s[0]] + s[1..];
    }
  }

  /** `.arg(a)` on a string that starts with its lowest marker `%d` puts `a` in its place. */
  lemma ArgHead(d: char, y: string, a: string)
    requires IsDigit(d)
    requires y == [] || !IsDigit(y[0])
    requires LowestMarker(y).None? || DigitValue(d) < LowestMarker(y).value
    ensures Arg(['%', d] + y, a) == a + y
  {
    MarkerHead(d, y, DigitValue(d), a);
    ReplaceAbsentMarker(y, DigitValue(d), a);
  }
}
