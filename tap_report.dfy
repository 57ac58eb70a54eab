/**
 * The serial report that the LIS2DTW12 double-tap example prints for each
 * snapshot of the sensor's TAP_SRC flags, stated on values.
 *
 * A report line reads
 *   "Double Tap Detected: Sign positive on X on Z axis\r\n"
 * or, for a single tap, the same with the prefix "Tap Detected: Sign ".
 * Render builds a line from the fields it carries, Parse reads them back,
 * and Events says which lines one poll iteration emits.
 */
module TapReport {

  datatype Option<T> = None | Some(value: T)

  /** One snapshot of the tap-source flags read at the top of the poll loop. */
  datatype TapSource = TapSource(
    doubleTap: bool,
    singleTap: bool,
    tapSign: bool,
    xTap: bool,
    yTap: bool,
    zTap: bool)

  datatype TapKind = DoubleTap | SingleTap

  /** The information one report line carries. */
  datatype TapLine = TapLine(kind: TapKind, positive: bool, onX: bool, onY: bool, onZ: bool)

  const DoublePrefix: string := "Double Tap Detected: Sign "
  const SinglePrefix: string := "Tap Detected: Sign "
  const Positive: string := "positive"
  const Negative: string := "negative"
  const Terminator: string := " axis\r\n"

  /** Size of the static transmit buffer the lines are formatted into. */
  const TxBufferSize: nat := 1000

  /** The longest line: a double tap on all three axes. */
  const MaxLineLength: nat := 56

  const Nul: char := '\0'

  function Prefix(kind: TapKind): string {
    match kind
    case DoubleTap => DoublePrefix
    case SingleTap => SinglePrefix
  }

  function SignWord(positive: bool): string {
    if positive then Positive else Negative
  }

  /** " on X", " on Y" or " on Z" when the axis flag is set, nothing otherwise. */
  function AxisMention(flag: bool, axis: char): string {
    if flag then " on " + [axis] else ""
  }

  function AxisPart(x: bool, y: bool, z: bool): string {
    AxisMention(x, 'X') + AxisMention(y, 'Y') + AxisMention(z, 'Z')
  }

  function AxisCount(t: TapLine): nat {
    (if t.onX then 1 else 0) + (if t.onY then 1 else 0) + (if t.onZ then 1 else 0)
  }

  /**
   * The text of one report line: the kind's prefix, the sign word, the axis
   * part and the terminator, in that order.
   */
  function Render(t: TapLine): (r: string)
    ensures |r| == |Prefix(t.kind)| + |SignWord(t.positive)| + 5 * AxisCount(t) + |Terminator|
  {
    assert |AxisMention(t.onX, 'X')| == if t.onX then 5 else 0;
    assert |AxisMention(t.onY, 'Y')| == if t.onY then 5 else 0;
    assert |AxisMention(t.onZ, 'Z')| == if t.onZ then 5 else 0;
    Prefix(t.kind) + SignWord(t.positive) + AxisPart(t.onX, t.onY, t.onZ) + Terminator
  }

  /** The line a branch of the poll loop reports for a snapshot. */
  function LineFor(kind: TapKind, src: TapSource): TapLine {
    TapLine(kind, src.tapSign, src.xTap, src.yTap, src.zTap)
  }

  /** The text a branch has formatted before the terminator is the line without it. */
  lemma RenderLineFor(kind: TapKind, src: TapSource, text: string)
    requires text == Prefix(kind) + SignWord(src.tapSign) + AxisPart(src.xTap, src.yTap, src.zTap)
    ensures Render(LineFor(kind, src)) == text + Terminator
  {
  }

  /**
   * The lines one poll iteration emits, in order: the double-tap line when
   * that flag is set, then the single-tap line when that flag is set.
   */
  function Events(src: TapSource): (ev: seq<TapLine>)
    ensures |ev| == (if src.doubleTap then 1 else 0) + (if src.singleTap then 1 else 0)
    ensures ev == [] <==> !src.doubleTap && !src.singleTap
    ensures src.doubleTap ==> ev[0].kind == DoubleTap
    ensures src.singleTap ==> ev[|ev| - 1].kind == SingleTap
    ensures forall i :: 0 <= i < |ev| ==>
      ev[i].positive == src.tapSign && ev[i].onX == src.xTap && ev[i].onY == src.yTap && ev[i].onZ == src.zTap
  {
    (if src.doubleTap then [LineFor(DoubleTap, src)] else [])
    + (if src.singleTap then [LineFor(SingleTap, src)] else [])
  }

  /** The text transmitted by one poll iteration, line by line. */
  function Report(src: TapSource): seq<string> {
    (if src.doubleTap then [Render(LineFor(DoubleTap, src))] else [])
    + (if src.singleTap then [Render(LineFor(SingleTap, src))] else [])
  }

  /**
   * What a pass transmits: nothing without a tap flag, one line per set flag,
   * the double-tap line first and the single-tap line last, each line at most
   * 56 characters of plain ASCII.
   */
  lemma ReportShape(src: TapSource)
    ensures var r := Report(src);
      && |r| == (if src.doubleTap then 1 else 0) + (if src.singleTap then 1 else 0)
      && (r == [] <==> !src.doubleTap && !src.singleTap)
      && (src.doubleTap ==> StartsWith(r[0], DoublePrefix))
      && (src.singleTap ==> StartsWith(r[|r| - 1], SinglePrefix))
      && (forall i :: 0 <= i < |r| ==> |r[i]| <= MaxLineLength && IsAscii(r[i]))
  {
    var double, single := LineFor(DoubleTap, src), LineFor(SingleTap, src);
    RenderLength(double);
    RenderLength(single);
    RenderIsAscii(double);
    RenderIsAscii(single);
    LineShape(DoubleTap, src);
    LineShape(SingleTap, src);
  }

  /** The report is the rendered events, line for line. */
  lemma ReportRendersEvents(src: TapSource)
    ensures |Report(src)| == |Events(src)|
    ensures forall i :: 0 <= i < |Events(src)| ==> Report(src)[i] == Render(Events(src)[i])
  {
  }

  /** Each line of a report reads back to the event it reports. */
  lemma ReportReadsBack(src: TapSource)
    ensures forall i :: 0 <= i < |Report(src)| ==> Parse(Report(src)[i]) == Some(Events(src)[i])
  {
    var ev := Events(src);
    ReportRendersEvents(src);
    forall i | 0 <= i < |ev| ensures Parse(Render(ev[i])) == Some(ev[i]) {
      ParseRender(ev[i]);
    }
  }

  predicate StartsWith(s: string, p: string) {
    |p| <= |s| && s[..|p|] == p
  }

  /** Consumes `word` from the front of `s` when it is there. */
  function ParseWord(s: string, word: string): (bool, string) {
    if StartsWith(s, word) then (true, s[|word|..]) else (false, s)
  }

  /** Reads a report line back into the fields it carries; None for any other text. */
  function Parse(s: string): Option<TapLine> {
    if StartsWith(s, DoublePrefix) then ParseSign(DoubleTap, s[|DoublePrefix|..])
    else if StartsWith(s, SinglePrefix) then ParseSign(SingleTap, s[|SinglePrefix|..])
    else None
  }

  function ParseSign(kind: TapKind, s: string): Option<TapLine> {
    if StartsWith(s, Positive) then ParseAxes(kind, true, s[|Positive|..])
    else if StartsWith(s, Negative) then ParseAxes(kind, false, s[|Negative|..])
    else None
  }

  function ParseAxes(kind: TapKind, positive: bool, s: string): Option<TapLine> {
    var (x, s1) := ParseWord(s, " on X");
    var (y, s2) := ParseWord(s1, " on Y");
    var (z, s3) := ParseWord(s2, " on Z");
    if s3 == Terminator then Some(TapLine(kind, positive, x, y, z)) else None
  }

  lemma StartsWithConcat(p: string, q: string)
    ensures StartsWith(p + q, p) && (p + q)[|p|..] == q
  {
    assert (p + q)[..|p|] == p;
  }

  /** A text that differs from `p` at some position inside both does not start with `p`. */
  lemma DiffersAt(s: string, p: string, i: nat)
    requires i < |p| && i < |s| && s[i] != p[i]
    ensures !StartsWith(s, p)
  {
    if |p| <= |s| {
      assert s[..|p|][i] != p[i];
    }
  }

  /** The text that may follow an axis mention: a mention of a later axis or the terminator. */
  predicate MentionFollow(rest: string, axis: char) {
    rest == Terminator || (|rest| >= 5 && rest[..4] == " on " && rest[4] > axis)
  }

  /** Parsing an axis word: present exactly when it was mentioned, and the rest is left alone. */
  lemma ParseMention(flag: bool, axis: char, rest: string)
    requires MentionFollow(rest, axis)
    ensures ParseWord(AxisMention(flag, axis) + rest, " on " + [axis]) == (flag, rest)
  {
    var word := " on " + [axis];
    if flag {
      StartsWithConcat(word, rest);
    } else {
      assert AxisMention(flag, axis) + rest == rest;
      if rest == Terminator {
        DiffersAt(rest, word, 1);
      } else {
        assert rest[4] == rest[..4 + 1][4];
        DiffersAt(rest, word, 4);
      }
    }
  }

  lemma MentionThenFollow(flag: bool, axis: char, rest: string, next: char)
    requires next < axis
    requires MentionFollow(rest, axis)
    ensures MentionFollow(AxisMention(flag, axis) + rest, next)
  {
    if flag {
      var s := AxisMention(flag, axis) + rest;
      assert s[..4] == " on ";
      assert s[4] == axis;
    } else {
      assert AxisMention(flag, axis) + rest == rest;
      if rest != Terminator {
        assert rest[..4] == " on ";
      }
    }
  }

  lemma {:induction false} ParseAxesRender(kind: TapKind, positive: bool, x: bool, y: bool, z: bool)
    ensures ParseAxes(kind, positive, AxisPart(x, y, z) + Terminator) == Some(TapLine(kind, positive, x, y, z))
  {
    assert " on " + ['X'] == " on X" && " on " + ['Y'] == " on Y" && " on " + ['Z'] == " on Z";
    var tail := AxisMention(z, 'Z') + Terminator;
    var mid := AxisMention(y, 'Y') + tail;
    var s := AxisMention(x, 'X') + mid;
    assert AxisPart(x, y, z) + Terminator == s;
    ParseMention(z, 'Z', Terminator);
    MentionThenFollow(z, 'Z', Terminator, 'Y');
    ParseMention(y, 'Y', tail);
    MentionThenFollow(y, 'Y', tail, 'X');
    ParseMention(x, 'X', mid);
    assert ParseWord(s, " on X") == (x, mid);
    assert ParseWord(mid, " on Y") == (y, tail);
    assert ParseWord(tail, " on Z") == (z, Terminator);
  }

  lemma ParseSignWord(kind: TapKind, positive: bool, body: string)
    ensures ParseSign(kind, SignWord(positive) + body) == ParseAxes(kind, positive, body)
  {
    var s := SignWord(positive) + body;
    StartsWithConcat(SignWord(positive), body);
    if !positive {
      DiffersAt(s, Positive, 0);
    }
  }

  lemma ParsePrefix(kind: TapKind, rest: string)
    ensures Parse(Prefix(kind) + rest) == ParseSign(kind, rest)
  {
    var s := Prefix(kind) + rest;
    StartsWithConcat(Prefix(kind), rest);
    if kind == SingleTap {
      DiffersAt(s, DoublePrefix, 0);
    }
  }

  /** Every line Render produces parses back to the fields it was built from. */
  lemma {:induction false} ParseRender(t: TapLine)
    ensures Parse(Render(t)) == Some(t)
  {
    var body := AxisPart(t.onX, t.onY, t.onZ) + Terminator;
    Concat4(Prefix(t.kind), SignWord(t.positive), AxisPart(t.onX, t.onY, t.onZ), Terminator);
    ParsePrefix(t.kind, SignWord(t.positive) + body);
    ParseSignWord(t.kind, t.positive, body);
    ParseAxesRender(t.kind, t.positive, t.onX, t.onY, t.onZ);
  }

  lemma ParseWordSound(s: string, word: string)
    ensures ParseWord(s, word).0 ==> s == word + ParseWord(s, word).1
    ensures !ParseWord(s, word).0 ==> s == ParseWord(s, word).1
  {
    if StartsWith(s, word) {
      assert s == s[..|word|] + s[|word|..];
    }
  }

  /** Regrouping a concatenation of four texts. */
  lemma Concat4(a: string, b: string, c: string, d: string)
    ensures a + (b + (c + d)) == a + b + c + d
    ensures a + (b + c + d) == a + b + c + d
  {
  }

  lemma ParseMentionSound(s: string, axis: char, word: string)
    requires word == " on " + [axis]
    ensures s == AxisMention(ParseWord(s, word).0, axis) + ParseWord(s, word).1
  {
    ParseWordSound(s, word);
  }

  lemma ParseAxesSound(kind: TapKind, positive: bool, s: string)
    ensures ParseAxes(kind, positive, s).Some? ==>
      var t := ParseAxes(kind, positive, s).value;
      t.kind == kind && t.positive == positive && s == AxisPart(t.onX, t.onY, t.onZ) + Terminator
  {
    var (x, s1) := ParseWord(s, " on X");
    var (y, s2) := ParseWord(s1, " on Y");
    var (z, s3) := ParseWord(s2, " on Z");
    ParseMentionSound(s, 'X', " on X");
    ParseMentionSound(s1, 'Y', " on Y");
    ParseMentionSound(s2, 'Z', " on Z");
    var mx, my, mz := AxisMention(x, 'X'), AxisMention(y, 'Y'), AxisMention(z, 'Z');
    assert s == mx + (my + (mz + s3));
    Concat4(mx, my, mz, s3);
  }

  lemma ParseSignSound(kind: TapKind, s: string)
    ensures ParseSign(kind, s).Some? ==>
      var t := ParseSign(kind, s).value;
      t.kind == kind && s == SignWord(t.positive) + (AxisPart(t.onX, t.onY, t.onZ) + Terminator)
  {
    var word := if StartsWith(s, Positive) then Positive else Negative;
    if StartsWith(s, word) {
      var rest := s[|word|..];
      assert s == word + rest by { assert s == s[..|word|] + rest; }
      ParseAxesSound(kind, word == Positive, rest);
    }
  }

  /** Parse accepts only text that Render produces: the two are inverse on report lines. */
  lemma {:induction false} RenderParse(s: string)
    ensures Parse(s).Some? ==> Render(Parse(s).value) == s
  {
    var kind := if StartsWith(s, DoublePrefix) then DoubleTap else SingleTap;
    if StartsWith(s, Prefix(kind)) {
      var rest := s[|Prefix(kind)|..];
      assert s == Prefix(kind) + rest by { assert s == s[..|Prefix(kind)|] + rest; }
      ParseSignSound(kind, rest);
      if Parse(s).Some? {
        var t := Parse(s).value;
        var p, w, a := Prefix(kind), SignWord(t.positive), AxisPart(t.onX, t.onY, t.onZ);
        assert s == p + (w + (a + Terminator));
        Concat4(p, w, a, Terminator);
      }
    }
  }

  /** Distinct lines carry distinct fields: a reader can recover the snapshot's flags. */
  lemma {:induction false} RenderInjective(a: TapLine, b: TapLine)
    ensures Render(a) == Render(b) <==> a == b
  {
    ParseRender(a);
    ParseRender(b);
  }

  /**
   * Two snapshots agree on everything a report shows: the same tap kinds and,
   * when any line is emitted, the same sign and axis flags.
   */
  predicate SameReported(a: TapSource, b: TapSource) {
    a.doubleTap == b.doubleTap && a.singleTap == b.singleTap
    && ((a.doubleTap || a.singleTap) ==>
          a.tapSign == b.tapSign && a.xTap == b.xTap && a.yTap == b.yTap && a.zTap == b.zTap)
  }

  /**
   * The transmitted lines determine the snapshot: two snapshots produce the
   * same report exactly when they agree on the kinds and, if anything is
   * reported, on the sign and the axes.
   */
  lemma {:induction false} ReportInjective(a: TapSource, b: TapSource)
    ensures Report(a) == Report(b) <==> SameReported(a, b)
  {
    ReportDeterminesEvents(a, b);
    EventsDetermineSnapshot(a, b);
  }

  lemma ReportDeterminesEvents(a: TapSource, b: TapSource)
    ensures Report(a) == Report(b) <==> Events(a) == Events(b)
  {
    if Report(a) == Report(b) {
      SameReportSameEvents(a, b);
    }
    if Events(a) == Events(b) {
      ReportRendersEvents(a);
      ReportRendersEvents(b);
      assert Report(a) == Report(b);
    }
  }

  lemma {:induction false} SameReportSameEvents(a: TapSource, b: TapSource)
    requires Report(a) == Report(b)
    ensures Events(a) == Events(b)
  {
    var ea, eb := Events(a), Events(b);
    ReportRendersEvents(a);
    ReportRendersEvents(b);
    forall i | 0 <= i < |ea| ensures ea[i] == eb[i] {
      assert Report(a)[i] == Report(b)[i];
      RenderInjective(ea[i], eb[i]);
    }
  }

  lemma EventsDetermineSnapshot(a: TapSource, b: TapSource)
    ensures Events(a) == Events(b) <==> SameReported(a, b)
  {
    var ea, eb := Events(a), Events(b);
    if ea == eb && |ea| == 1 {
      assert a.doubleTap <==> ea[0].kind == DoubleTap;
      assert b.doubleTap <==> eb[0].kind == DoubleTap;
    }
  }

  /**
   * The length of a line: prefix, eight-letter sign word, five characters per
   * axis, seven for the terminator; at most 56, reached only by a double tap on
   * all three axes, so every line fits the transmit buffer with its NUL.
   */
  lemma {:induction false} RenderLength(t: TapLine)
    ensures |Render(t)| == |Prefix(t.kind)| + 8 + 5 * AxisCount(t) + 7
    ensures |Render(t)| <= MaxLineLength
    ensures |Render(t)| == MaxLineLength <==> t.kind == DoubleTap && t.onX && t.onY && t.onZ
    ensures |Render(t)| + 1 <= TxBufferSize
  {
  }

  /**
   * The shape of the line a branch reports for a snapshot: it starts with the
   * kind's prefix, continues with "positive" exactly when the sign flag is set
   * ("negative" exactly when it is clear), and ends with " axis\r\n".
   */
  lemma {:induction false} LineShape(kind: TapKind, src: TapSource)
    ensures StartsWith(Render(LineFor(kind, src)), Prefix(kind))
    ensures var sign := Render(LineFor(kind, src))[|Prefix(kind)|..|Prefix(kind)| + 8];
      (sign == Positive <==> src.tapSign) && (sign == Negative <==> !src.tapSign)
    ensures var line := Render(LineFor(kind, src));
      |line| >= |Terminator| && line[|line| - |Terminator|..] == Terminator
  {
    var t := LineFor(kind, src);
    assert t.kind == kind && t.positive == src.tapSign;
    RenderShape(t);
    if src.tapSign {
      DiffersAt(Positive, Negative, 0);
    } else {
      DiffersAt(Negative, Positive, 0);
    }
  }

  lemma RenderShape(t: TapLine)
    ensures StartsWith(Render(t), Prefix(t.kind))
    ensures Render(t)[|Prefix(t.kind)|..|Prefix(t.kind)| + 8] == SignWord(t.positive)
    ensures |Render(t)| >= |Terminator| && Render(t)[|Render(t)| - |Terminator|..] == Terminator
  {
    PartsAt(Prefix(t.kind), SignWord(t.positive), AxisPart(t.onX, t.onY, t.onZ), Terminator);
  }

  /** Where the four parts of a line sit in it. */
  lemma PartsAt(p: string, w: string, a: string, e: string)
    ensures var s := p + w + a + e;
      StartsWith(s, p) && s[|p|..|p| + |w|] == w && s[|s| - |e|..] == e
  {
    var s := p + w + a + e;
    assert s[..|p|] == p;
    assert s[|p|..|p| + |w|] == w;
    assert s[|s| - |e|..] == e;
  }

  predicate IsAscii(s: string) {
    forall i :: 0 <= i < |s| ==> s[i] != Nul && s[i] < 128 as char
  }

  lemma AsciiConcat(a: string, b: string)
    requires IsAscii(a) && IsAscii(b)
    ensures IsAscii(a + b)
  {
    forall i | 0 <= i < |a + b| ensures (a + b)[i] != Nul && (a + b)[i] < 128 as char {
      if i >= |a| { assert (a + b)[i] == b[i - |a|]; }
    }
  }

  lemma AsciiJoin(a: string, b: string, c: string, d: string, e: string, f: string)
    requires IsAscii(a) && IsAscii(b) && IsAscii(c) && IsAscii(d) && IsAscii(e) && IsAscii(f)
    ensures IsAscii(a + b + (c + d + e) + f)
  {
    AsciiConcat(c, d);
    AsciiConcat(c + d, e);
    AsciiConcat(a, b);
    AsciiConcat(a + b, c + d + e);
    AsciiConcat(a + b + (c + d + e), f);
  }

  lemma PrefixIsAscii(kind: TapKind)
    ensures IsAscii(Prefix(kind))
  {
    var p := Prefix(kind);
    forall i | 0 <= i < |p| ensures p[i] != Nul && p[i] < 128 as char {
    }
  }

  lemma TerminatorIsAscii()
    ensures IsAscii(Terminator)
  {
  }

  lemma SignIsAscii(positive: bool)
    ensures IsAscii(SignWord(positive))
  {
  }

  lemma MentionIsAscii(flag: bool, axis: char)
    requires axis < 128 as char && axis != Nul
    ensures IsAscii(AxisMention(flag, axis))
  {
    if flag {
      var m := AxisMention(flag, axis);
      assert m == [' ', 'o', 'n', ' ', axis];
    }
  }

  lemma AsciiHasNoNul(s: string)
    requires IsAscii(s)
    ensures Nul !in s
  {
    assert forall i :: 0 <= i < |s| ==> s[i] != Nul;
  }

  /** The pieces a line is formatted from contain no NUL, so sprintf copies each in full. */
  lemma PiecesHaveNoNul(kind: TapKind, positive: bool)
    ensures Nul !in Prefix(kind) + SignWord(positive)
    ensures Nul !in " on X" && Nul !in " on Y" && Nul !in " on Z" && Nul !in Terminator
  {
    PrefixIsAscii(kind);
    SignIsAscii(positive);
    AsciiConcat(Prefix(kind), SignWord(positive));
    AsciiHasNoNul(Prefix(kind) + SignWord(positive));
    TerminatorIsAscii();
    AsciiHasNoNul(Terminator);
  }

  /**
   * Every character of a line is printable ASCII or CR/LF, so none is the NUL
   * that ends a C string: strlen of the formatted buffer is the line's length.
   */
  lemma {:induction false} RenderIsAscii(t: TapLine)
    ensures IsAscii(Render(t))
  {
    PrefixIsAscii(t.kind);
    SignIsAscii(t.positive);
    MentionIsAscii(t.onX, 'X');
    MentionIsAscii(t.onY, 'Y');
    MentionIsAscii(t.onZ, 'Z');
    TerminatorIsAscii();
    AsciiJoin(Prefix(t.kind), SignWord(t.positive), AxisMention(t.onX, 'X'),
              AxisMention(t.onY, 'Y'), AxisMention(t.onZ, 'Z'), Terminator);
  }
}
