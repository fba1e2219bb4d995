/**
 * `_make_request_id`: seven values drawn from [65536, 131072), each rendered by `hex(v)[3:]`
 * and laid out by the format `%s%s-%s-dmcp-%s-%s%s%s`. The random draws are parameters.
 */
module RequestId {
  import opened Numerals

  const Low: nat := 65536
  const High: nat := 131072

  /** Where each of the seven segments starts in the formatted id. */
  const SegmentStarts: seq<nat> := [0, 4, 9, 19, 24, 28, 32]

  /** Every segment lies within the 36 characters of an id. */
  lemma StartsWithin()
    ensures |SegmentStarts| == 7 && forall i | 0 <= i < 7 :: SegmentStarts[i] + 4 <= 36
  {
  }

  /** Python's `hex(v)` for a non-negative v. */
  function Hex(v: nat): (s: string)
    ensures |s| >= 3 && s[..2] == "0x"
  {
    "0x" + Show(v, 16)
  }

  /** `get_rand()` given its draw: `hex(v)[3:]`, the characters after the first digit. */
  function Segment(v: nat): string
  {
    var h := Hex(v);
    h[3..]
  }

  /** The four lower-case hex digits of w, zero-padded. */
  function Pad4(w: nat): (s: string)
    requires w < Low
    ensures |s| == 4 && AllDigits(s, 16)
  {
    FourDigits(w);
    [DigitChar(w / 16 / 16 / 16), DigitChar(w / 16 / 16 % 16), DigitChar(w / 16 % 16), DigitChar(w % 16)]
  }

  /** The seven values in the id's layout. */
  function Format(v: seq<nat>): string
    requires |v| == 7
  {
    Segment(v[0]) + Segment(v[1]) + "-" + Segment(v[2]) + "-dmcp-" + Segment(v[3]) + "-"
      + Segment(v[4]) + Segment(v[5]) + Segment(v[6])
  }

  predicate InRange(v: seq<nat>)
  {
    forall i | 0 <= i < |v| :: Low <= v[i] < High
  }

  /** The base-16 digits of a value of the range, against those of its offset w = v - 65536. */
  lemma RangeDigits(v: nat)
    requires Low <= v < High
    ensures var w := v - Low;
      && v % 16 == w % 16 && v / 16 % 16 == w / 16 % 16
      && v / 16 / 16 % 16 == w / 16 / 16 % 16 && v / 16 / 16 / 16 % 16 == w / 16 / 16 / 16
      && v / 16 / 16 / 16 / 16 == 1
  {
    var w := v - Low;
    FourDigits(w);
    ShiftDigit(w, 4096);
    ShiftDigit(w / 16, 256);
    ShiftDigit(w / 16 / 16, 16);
    ShiftDigit(w / 16 / 16 / 16, 1);
  }

  /** Adding k sixteens moves the quotient by 16 up by k and keeps the remainder. */
  lemma ShiftDigit(x: nat, k: nat)
    ensures (x + k * 16) / 16 == x / 16 + k && (x + k * 16) % 16 == x % 16
  {
  }

  /** A value of the range has five hex digits, the first of them 1. */
  lemma ShowInRange(v: nat)
    requires Low <= v < High
    ensures Show(v, 16) == ['1'] + Pad4(v - Low)
    ensures Segment(v) == Pad4(v - Low)
  {
    RangeDigits(v);
    var v1 := v / 16;
    var v2 := v1 / 16;
    var v3 := v2 / 16;
    assert Show(v3, 16) == [DigitChar(1)] + [DigitChar(v3 % 16)];
    assert Show(v2, 16) == Show(v3, 16) + [DigitChar(v2 % 16)];
    assert Show(v1, 16) == Show(v2, 16) + [DigitChar(v1 % 16)];
    assert Show(v, 16) == Show(v1, 16) + [DigitChar(v % 16)];
    assert Hex(v) == "0x" + (['1'] + Pad4(v - Low));
  }

  /** A number below 65536 from its four base-16 digits. */
  lemma FourDigits(w: nat)
    requires w < Low
    ensures w == ((w / 16 / 16 / 16 * 16 + w / 16 / 16 % 16) * 16 + w / 16 % 16) * 16 + w % 16
    ensures w / 16 / 16 / 16 < 16
  {
    var a := w / 16;
    var b := a / 16;
    assert w == a * 16 + w % 16;
    assert a == b * 16 + a % 16;
    assert b == b / 16 * 16 + b % 16;
  }

  /** Four padded digits read back as the number they render. */
  lemma Pad4Value(w: nat)
    requires w < Low
    ensures Value(Pad4(w), 16) == w
  {
    FourDigits(w);
    var ca, cb, cc, cd := DigitChar(w / 16 / 16 / 16), DigitChar(w / 16 / 16 % 16), DigitChar(w / 16 % 16), DigitChar(w % 16);
    ValueOfAppend([], ca, 16);
    assert [] + [ca] == [ca];
    ValueOfAppend([ca], cb, 16);
    assert [ca] + [cb] == [ca, cb];
    ValueOfAppend([ca, cb], cc, 16);
    assert [ca, cb] + [cc] == [ca, cb, cc];
    ValueOfAppend([ca, cb, cc], cd, 16);
    assert [ca, cb, cc] + [cd] == Pad4(w);
  }

  /** Each segment of a value in range is exactly four lower-case hex digits encoding v - 65536. */
  lemma SegmentDigits(v: nat)
    requires Low <= v < High
    ensures Segment(v) == Pad4(v - Low)
    ensures |Segment(v)| == 4 && AllDigits(Segment(v), 16)
    ensures Value(Segment(v), 16) == v - Low
  {
    ShowInRange(v);
    Pad4Value(v - Low);
  }

  /** Reads the seven values back out of an id. */
  function Parse(id: string): (v: seq<nat>)
    requires |id| == 36
    requires forall i | 0 <= i < 7 :: AllDigits(id[SegmentStarts[i]..SegmentStarts[i] + 4], 16)
    ensures |v| == 7
  {
    seq(7, i requires 0 <= i < 7 => Value(id[SegmentStarts[i]..SegmentStarts[i] + 4], 16) + Low)
  }

  /** Positions within the layout, for any seven four-character segments. */
  lemma LayoutOf(p: seq<string>)
    requires |p| == 7 && forall i | 0 <= i < 7 :: |p[i]| == 4
    ensures var s := p[0] + p[1] + "-" + p[2] + "-dmcp-" + p[3] + "-" + p[4] + p[5] + p[6];
      && |s| == 36
      && s[8] == '-' && s[13] == '-' && s[18] == '-' && s[23] == '-'
      && s[14..18] == "dmcp"
      && forall i | 0 <= i < 7 :: s[SegmentStarts[i]..SegmentStarts[i] + 4] == p[i]
  {
    var s := p[0] + p[1] + "-" + p[2] + "-dmcp-" + p[3] + "-" + p[4] + p[5] + p[6];
    assert s[8] == '-' && s[13] == '-' && s[18] == '-' && s[23] == '-';
    assert s[14..18] == "dmcp";
    forall i | 0 <= i < 7 ensures s[SegmentStarts[i]..SegmentStarts[i] + 4] == p[i] {
      if i == 0 {
        assert s[0..4] == p[0];
      } else if i == 1 {
        assert s[4..8] == p[1];
      } else if i == 2 {
        assert s[9..13] == p[2];
      } else if i == 3 {
        assert s[19..23] == p[3];
      } else if i == 4 {
        assert s[24..28] == p[4];
      } else if i == 5 {
        assert s[28..32] == p[5];
      } else {
        assert s[32..36] == p[6];
      }
    }
  }

  /** The segments of a draw in range, each four hex digits. */
  function Segments(v: seq<nat>): (p: seq<string>)
    requires |v| == 7 && InRange(v)
    ensures |p| == 7 && forall i | 0 <= i < 7 :: p[i] == Segment(v[i]) == Pad4(v[i] - Low)
  {
    forall i | 0 <= i < 7 ensures Segment(v[i]) == Pad4(v[i] - Low) {
      SegmentDigits(v[i]);
    }
    seq(7, i requires 0 <= i < 7 => Segment(v[i]))
  }

  /**
   * With all seven values in range the id is 36 characters in the 8-4-4-4-12 layout: hyphens
   * at 8, 13, 18 and 23, `dmcp` as the third group, and segment i at SegmentStarts[i].
   */
  lemma Layout(v: seq<nat>)
    requires |v| == 7 && InRange(v)
    ensures |Format(v)| == 36
    ensures Format(v)[8] == '-' && Format(v)[13] == '-' && Format(v)[18] == '-' && Format(v)[23] == '-'
    ensures Format(v)[14..18] == "dmcp"
    ensures forall i | 0 <= i < 7 :: Format(v)[SegmentStarts[i]..SegmentStarts[i] + 4] == Pad4(v[i] - Low)
  {
    var p := Segments(v);
    LayoutOf(p);
    assert Format(v) == p[0] + p[1] + "-" + p[2] + "-dmcp-" + p[3] + "-" + p[4] + p[5] + p[6];
  }

  /** A 36-character string holding the padded offsets of v at the segment starts parses as v. */
  lemma ParseSegments(id: string, v: seq<nat>)
    requires |id| == 36 && |v| == 7 && InRange(v)
    requires forall i | 0 <= i < 7 :: SegmentStarts[i] + 4 <= 36 && id[SegmentStarts[i]..SegmentStarts[i] + 4] == Pad4(v[i] - Low)
    ensures forall i | 0 <= i < 7 :: AllDigits(id[SegmentStarts[i]..SegmentStarts[i] + 4], 16)
    ensures Parse(id) == v
  {
    forall i | 0 <= i < 7
      ensures Value(id[SegmentStarts[i]..SegmentStarts[i] + 4], 16) + Low == v[i]
    {
      Pad4Value(v[i] - Low);
    }
    var r := Parse(id);
    assert forall i | 0 <= i < 7 :: r[i] == v[i];
  }

  /** The id determines the seven values: parsing it gives them back. */
  lemma ParseFormat(v: seq<nat>)
    requires |v| == 7 && InRange(v)
    ensures |Format(v)| == 36
    ensures forall i | 0 <= i < 7 :: AllDigits(Format(v)[SegmentStarts[i]..SegmentStarts[i] + 4], 16)
    ensures Parse(Format(v)) == v
  {
    Layout(v);
    StartsWithin();
    ParseSegments(Format(v), v);
  }

  /** Different draws give different ids. */
  lemma FormatInjective(v: seq<nat>, w: seq<nat>)
    requires |v| == 7 && InRange(v) && |w| == 7 && InRange(w)
    requires v != w
    ensures Format(v) != Format(w)
  {
    ParseFormat(v);
    ParseFormat(w);
  }
}
