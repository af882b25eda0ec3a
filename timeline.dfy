/** The subtitle timeline of core/_6_gen_sub.py (`align_timestamp` and
    `convert_to_srt_format`): the fallback used when the resolver raises,
    the removal of gaps shorter than a second, and the SubRip time format. */
module Timeline {
  import opened Wrappers
  import opened Strings
  import opened Matcher
  import opened Resolver

  // ---------------------------------------------------------------- linear fallback

  /** The fallback timeline: sentence k gets the slot [2k, 2k + 2]. */
  function Linear(n: nat): (r: seq<Interval>)
    ensures |r| == n
  {
    seq(n, k requires 0 <= k < n => Interval(2.0 * k as real, 2.0 * k as real + 2.0))
  }

  /** The fallback slots are well formed and back to back. */
  lemma LinearShape(n: nat)
    ensures WellFormed(Linear(n)) && Chained(Linear(n))
    ensures forall k :: 0 <= k < n - 1 ==> Linear(n)[k].end == Linear(n)[k + 1].start
  {
  }

  /** The loop in the `except` branch of `align_timestamp`. */
  method LinearFallback(n: nat) returns (stamps: seq<Interval>)
    ensures stamps == Linear(n)
  {
    stamps := [];
    var curr := 0.0;
    var k := 0;
    while k < n
      invariant 0 <= k <= n
      invariant curr == 2.0 * k as real
      invariant stamps == Linear(k)
    {
      stamps := stamps + [Interval(curr, curr + 2.0)];
      curr := curr + 2.0;
      k := k + 1;
    }
  }

  // ---------------------------------------------------------------- gap removal

  /** True when the gap after entry k is strictly between 0 and 1 second. */
  predicate SmallGap(ts: seq<Interval>, k: nat) {
    k + 1 < |ts| && 0.0 < ts[k + 1].start - ts[k].end < 1.0
  }

  /** The timeline after gap removal: an entry followed by a gap of less than
      a second is extended to the next entry's start. */
  function CloseGaps(ts: seq<Interval>): (r: seq<Interval>)
    ensures |r| == |ts|
  {
    seq(|ts|, k requires 0 <= k < |ts| =>
      if SmallGap(ts, k) then Interval(ts[k].start, ts[k + 1].start) else ts[k])
  }

  /** Gap removal never moves a start, and moves an end only to close a gap
      shorter than a second, up to the next start. */
  lemma CloseGapsChanges(ts: seq<Interval>, k: nat)
    requires k < |ts|
    ensures CloseGaps(ts)[k].start == ts[k].start
    ensures SmallGap(ts, k) ==> CloseGaps(ts)[k].end == ts[k + 1].start
    ensures !SmallGap(ts, k) ==> CloseGaps(ts)[k] == ts[k]
    ensures ts[k].end <= CloseGaps(ts)[k].end
  {
  }

  /** After gap removal no gap strictly between 0 and 1 second is left. */
  lemma CloseGapsLeavesNoSmallGap(ts: seq<Interval>, k: nat)
    ensures !SmallGap(CloseGaps(ts), k)
  {
    if k + 1 < |ts| {
      CloseGapsChanges(ts, k);
      CloseGapsChanges(ts, k + 1);
    }
  }

  /** Running gap removal twice changes nothing the first run did not. */
  lemma CloseGapsIdempotent(ts: seq<Interval>)
    ensures CloseGaps(CloseGaps(ts)) == CloseGaps(ts)
  {
    var once := CloseGaps(ts);
    forall k | 0 <= k < |ts|
      ensures CloseGaps(once)[k] == once[k]
    {
      CloseGapsLeavesNoSmallGap(ts, k);
    }
  }

  /** Gap removal keeps a well-formed, non-overlapping timeline so. */
  lemma CloseGapsKeepsShape(ts: seq<Interval>)
    requires WellFormed(ts) && Chained(ts)
    ensures WellFormed(CloseGaps(ts)) && Chained(CloseGaps(ts))
  {
    var r := CloseGaps(ts);
    forall k | 0 <= k < |ts|
      ensures r[k].start <= r[k].end
    {
      CloseGapsChanges(ts, k);
    }
    forall k | 0 <= k < |ts| - 1
      ensures r[k].end <= r[k + 1].start
    {
      CloseGapsChanges(ts, k);
      CloseGapsChanges(ts, k + 1);
    }
  }

  /** The gap-removal loop of `align_timestamp`, overwriting entries in place. */
  method RemoveGaps(a: array<Interval>)
    modifies a
    ensures a[..] == CloseGaps(old(a[..]))
  {
    ghost var ts := a[..];
    var i := 0;
    while i + 1 < a.Length
      invariant 0 <= i <= a.Length && (a.Length == 0 || i < a.Length)
      invariant forall k :: 0 <= k < i ==> a[k] == CloseGaps(ts)[k]
      invariant forall k :: i <= k < a.Length ==> a[k] == ts[k]
    {
      var currentEnd := a[i].end;
      var nextStart := a[i + 1].start;
      var deltaTime := nextStart - currentEnd;
      CloseGapsChanges(ts, i);
      if 0.0 < deltaTime < 1.0 {
        a[i] := Interval(a[i].start, nextStart);
      }
      assert a[i] == CloseGaps(ts)[i];
      i := i + 1;
    }
    if a.Length > 0 {
      CloseGapsChanges(ts, a.Length - 1);
    }
    assert forall k :: 0 <= k < a.Length ==> a[k] == CloseGaps(ts)[k];
  }

  // ---------------------------------------------------------------- SubRip times

  function Zeros(n: nat): (r: string)
    ensures |r| == n && forall i :: 0 <= i < n ==> r[i] == '0'
  {
    seq(n, _ => '0')
  }

  /** Left-fills a digit string with '0' up to `width` characters. */
  function ZeroFill(digits: string, width: nat): (r: string)
    ensures |r| == if |digits| >= width then |digits| else width
  {
    if |digits| >= width then digits else Zeros(width - |digits|) + digits
  }

  /** Python's `f"{n:0{width}d}"`: zero-filled to `width` characters, a minus
      sign counting towards the width. */
  function Pad(n: int, width: nat): (r: string)
    ensures n >= 0 ==> |r| >= width
    ensures n < 0 ==> |r| >= 1 && r[0] == '-'
  {
    if n >= 0 then ZeroFill(NatToString(n), width)
    else ['-'] + ZeroFill(NatToString(-n), if width >= 1 then width - 1 else 0)
  }

  /** `seconds_to_hmsm` of `convert_to_srt_format`, with Python's floor
      division, floored modulo and `int()` on reals. */
  function SrtTime(t: real): string {
    var hours := (t / 3600.0).Floor;
    var minutes := ((t - 3600.0 * (t / 3600.0).Floor as real) / 60.0).Floor;
    var seconds := t - 60.0 * (t / 60.0).Floor as real;
    var milliseconds := (seconds * 1000.0).Floor % 1000;
    Pad(hours, 2) + ":" + Pad(minutes, 2) + ":" + Pad(seconds.Floor, 2) + "," + Pad(milliseconds, 3)
  }

  /** `convert_to_srt_format(start, end)`. */
  function SrtRange(start: real, end: real): string {
    SrtTime(start) + " --> " + SrtTime(end)
  }

  /** The SubRip rendering of a whole number of milliseconds. */
  function FormatMillis(ms: nat): string {
    Pad(ms / 3600000, 2) + ":" + Pad(ms / 60000 % 60, 2) + ":" + Pad(ms / 1000 % 60, 2) + "," + Pad(ms % 1000, 3)
  }

  /** Flooring a non-negative time divided by 3600, by 60 or by 1 agrees with
      integer division of its whole milliseconds. */
  lemma FloorsOfMillis(t: real)
    requires t >= 0.0
    ensures var ms := (t * 1000.0).Floor;
      && (t / 3600.0).Floor == ms / 3600000
      && (t / 60.0).Floor == ms / 60000
      && t.Floor == ms / 1000
  {
    var ms := (t * 1000.0).Floor;
    var h := ms / 3600000;
    assert h as real <= t / 3600.0 < h as real + 1.0;
    var f := ms / 60000;
    assert f as real <= t / 60.0 < f as real + 1.0;
    var s := ms / 1000;
    assert s as real <= t < s as real + 1.0;
  }

  lemma MillisFields(ms: nat)
    ensures ms / 60000 / 60 == ms / 3600000
    ensures ms / 1000 / 60 == ms / 60000
    ensures ms == ms / 3600000 * 3600000 + ms / 60000 % 60 * 60000 + ms / 1000 % 60 * 1000 + ms % 1000
  {
  }

  /** The minutes field: `(t % 3600) // 60` is the minutes of the whole milliseconds. */
  lemma MinutesField(t: real)
    requires t >= 0.0
    ensures ((t - 3600.0 * (t / 3600.0).Floor as real) / 60.0).Floor == (t * 1000.0).Floor / 60000 % 60
  {
    var ms := (t * 1000.0).Floor;
    FloorsOfMillis(t);
    MillisFields(ms);
    var h := (t / 3600.0).Floor;
    var f := (t / 60.0).Floor;
    assert (t - 3600.0 * h as real) / 60.0 == t / 60.0 - 60.0 * h as real;
    assert f / 60 == h;
  }

  /** The seconds field: `int(t % 60)` is the seconds of the whole milliseconds. */
  lemma SecondsField(t: real)
    requires t >= 0.0
    ensures (t - 60.0 * (t / 60.0).Floor as real).Floor == (t * 1000.0).Floor / 1000 % 60
  {
    var ms := (t * 1000.0).Floor;
    FloorsOfMillis(t);
    MillisFields(ms);
    var f := (t / 60.0).Floor;
    assert (t - 60.0 * f as real).Floor == t.Floor - 60 * f;
    assert ms / 1000 / 60 == f;
  }

  /** The milliseconds field: `int((t % 60) * 1000) % 1000` is the last three
      digits of the whole milliseconds. */
  lemma MillisecondsField(t: real)
    requires t >= 0.0
    ensures ((t - 60.0 * (t / 60.0).Floor as real) * 1000.0).Floor % 1000 == (t * 1000.0).Floor % 1000
  {
    var f := (t / 60.0).Floor;
    assert (t - 60.0 * f as real) * 1000.0 == t * 1000.0 - (60000 * f) as real;
    FloorShift(t * 1000.0, 60000 * f);
    ThousandsShift((t * 1000.0).Floor, 60 * f);
  }

  lemma FloorShift(x: real, n: int)
    ensures (x - n as real).Floor == x.Floor - n
  {
  }

  lemma ThousandsShift(a: int, b: int)
    ensures (a - 1000 * b) % 1000 == a % 1000
  {
  }

  /** For a non-negative time the Python field arithmetic is exactly the
      decomposition of its whole milliseconds into hours, minutes, seconds
      and milliseconds. */
  lemma SrtTimeIsMillis(t: real)
    requires t >= 0.0
    ensures SrtTime(t) == FormatMillis((t * 1000.0).Floor)
  {
    FloorsOfMillis(t);
    MinutesField(t);
    SecondsField(t);
    MillisecondsField(t);
  }

  /** `HH:MM:SS,mmm` read back to whole milliseconds, for exactly that layout. */
  function ParseSrtTime(s: string): (r: Option<nat>)
    ensures r.Some? ==> |s| == 12 && s[2] == ':' && s[5] == ':' && s[8] == ','
  {
    if |s| == 12 && s[2] == ':' && s[5] == ':' && s[8] == ','
       && IsDigits(s[0..2]) && IsDigits(s[3..5]) && IsDigits(s[6..8]) && IsDigits(s[9..12])
    then Some(DigitsValue(s[0..2]) * 3600000 + DigitsValue(s[3..5]) * 60000
              + DigitsValue(s[6..8]) * 1000 + DigitsValue(s[9..12]))
    else None
  }

  lemma {:induction false} LeadingZero(s: string)
    requires forall i :: 0 <= i < |s| ==> IsDigitChar(s[i])
    ensures forall i :: 0 <= i < |['0'] + s| ==> IsDigitChar((['0'] + s)[i])
    ensures DigitsValue(['0'] + s) == DigitsValue(s)
  {
    var t := ['0'] + s;
    if s != [] {
      assert t[..|t| - 1] == ['0'] + s[..|s| - 1];
      LeadingZero(s[..|s| - 1]);
    } else {
      assert t[..|t| - 1] == [];
    }
  }

  lemma {:induction false} LeadingZeros(n: nat, s: string)
    requires forall i :: 0 <= i < |s| ==> IsDigitChar(s[i])
    ensures forall i :: 0 <= i < |Zeros(n) + s| ==> IsDigitChar((Zeros(n) + s)[i])
    ensures DigitsValue(Zeros(n) + s) == DigitsValue(s)
  {
    if n > 0 {
      LeadingZeros(n - 1, s);
      assert Zeros(n) + s == ['0'] + (Zeros(n - 1) + s);
      LeadingZero(Zeros(n - 1) + s);
    } else {
      assert Zeros(n) + s == s;
    }
  }

  lemma NatToStringShort(n: nat, width: nat)
    requires width >= 1 && (width == 1 ==> n < 10) && (width == 2 ==> n < 100) && (width == 3 ==> n < 1000)
    requires width <= 3
    ensures |NatToString(n)| <= width
  {
    if n >= 10 {
      assert |NatToString(n / 10)| <= width - 1 by {
        NatToStringShort(n / 10, width - 1);
      }
    }
  }

  /** A field below 10^width renders as exactly `width` digits worth its value. */
  lemma PadField(n: nat, width: nat)
    requires 1 <= width <= 3
    requires (width == 1 ==> n < 10) && (width == 2 ==> n < 100) && (width == 3 ==> n < 1000)
    ensures |Pad(n, width)| == width && IsDigits(Pad(n, width)) && DigitsValue(Pad(n, width)) == n
  {
    NatToStringShort(n, width);
    NatToStringRoundTrip(n);
    var d := NatToString(n);
    LeadingZeros(width - |d|, d);
    assert Pad(n, width) == Zeros(width - |d|) + d;
  }

  /** The pieces of `HH:MM:SS,mmm` sit at fixed positions. */
  lemma LayoutSlices(a: string, b: string, c: string, d: string)
    requires |a| == 2 && |b| == 2 && |c| == 2 && |d| == 3
    ensures var r := a + ":" + b + ":" + c + "," + d;
      && |r| == 12 && r[2] == ':' && r[5] == ':' && r[8] == ','
      && r[0..2] == a && r[3..5] == b && r[6..8] == c && r[9..12] == d
  {
  }

  lemma ParseFields(r: string)
    requires |r| == 12 && r[2] == ':' && r[5] == ':' && r[8] == ','
    requires IsDigits(r[0..2]) && IsDigits(r[3..5]) && IsDigits(r[6..8]) && IsDigits(r[9..12])
    ensures ParseSrtTime(r) == Some(DigitsValue(r[0..2]) * 3600000 + DigitsValue(r[3..5]) * 60000
                                    + DigitsValue(r[6..8]) * 1000 + DigitsValue(r[9..12]))
  {
  }

  /** Four digit fields of widths 2, 2, 2 and 3 laid out as `HH:MM:SS,mmm`
      parse back to the milliseconds they denote. */
  lemma ParseLayout(a: string, b: string, c: string, d: string)
    requires |a| == 2 && |b| == 2 && |c| == 2 && |d| == 3
    requires IsDigits(a) && IsDigits(b) && IsDigits(c) && IsDigits(d)
    ensures |a + ":" + b + ":" + c + "," + d| == 12
    ensures ParseSrtTime(a + ":" + b + ":" + c + "," + d)
      == Some(DigitsValue(a) * 3600000 + DigitsValue(b) * 60000 + DigitsValue(c) * 1000 + DigitsValue(d))
  {
    var r := a + ":" + b + ":" + c + "," + d;
    LayoutSlices(a, b, c, d);
    ParseFields(r);
  }

  /** Times below 100 hours render in the fixed `HH:MM:SS,mmm` layout and read
      back to the same number of milliseconds, so distinct milliseconds give
      distinct renderings. */
  lemma FormatMillisRoundTrip(ms: nat)
    requires ms < 360000000
    ensures |FormatMillis(ms)| == 12
    ensures ParseSrtTime(FormatMillis(ms)) == Some(ms)
  {
    var h, m, s, u := ms / 3600000, ms / 60000 % 60, ms / 1000 % 60, ms % 1000;
    PadField(h, 2);
    PadField(m, 2);
    PadField(s, 2);
    PadField(u, 3);
    ParseLayout(Pad(h, 2), Pad(m, 2), Pad(s, 2), Pad(u, 3));
    MillisFields(ms);
  }

  /** `convert_to_srt_format` on times in [0, 360000) seconds: the layout
      `HH:MM:SS,mmm --> HH:MM:SS,mmm`, each side reading back to the time's
      whole milliseconds. */
  lemma SrtRangeLayout(start: real, end: real)
    requires 0.0 <= start < 360000.0 && 0.0 <= end < 360000.0
    ensures var r := SrtRange(start, end);
      && |r| == 29 && r[12..17] == " --> "
      && ParseSrtTime(r[..12]) == Some((start * 1000.0).Floor)
      && ParseSrtTime(r[17..]) == Some((end * 1000.0).Floor)
  {
    var a, b := (start * 1000.0).Floor, (end * 1000.0).Floor;
    SrtTimeIsMillis(start);
    SrtTimeIsMillis(end);
    FormatMillisRoundTrip(a);
    FormatMillisRoundTrip(b);
    var x, y := FormatMillis(a), FormatMillis(b);
    var r := x + " --> " + y;
    assert r == SrtRange(start, end);
    assert r[..12] == x;
    assert r[17..] == y;
  }

  // ---------------------------------------------------------------- align_timestamp

  /** A spreadsheet cell as it reaches the resolver: text, or a value that is
      not a string (an empty cell reads back as NaN), on which `.lower()` raises. */
  datatype Cell = Text(text: string) | NotText

  /** A row of the word table: the word's cell and its start and end times. */
  datatype WordRow = WordRow(cell: Cell, start: real, end: real)

  predicate AllText(cells: seq<Cell>) {
    forall k :: 0 <= k < |cells| ==> cells[k].Text?
  }

  predicate AllWordsText(rows: seq<WordRow>) {
    forall k :: 0 <= k < |rows| ==> rows[k].cell.Text?
  }

  function Texts(cells: seq<Cell>): (r: seq<string>)
    requires AllText(cells)
    ensures |r| == |cells|
  {
    seq(|cells|, k requires 0 <= k < |cells| => cells[k].text)
  }

  function Words(rows: seq<WordRow>): (r: seq<Word>)
    requires AllWordsText(rows)
    ensures |r| == |rows|
  {
    seq(|rows|, k requires 0 <= k < |rows| => Word(rows[k].cell.text, rows[k].start, rows[k].end))
  }

  /** The timeline `align_timestamp` starts from: the resolver's when every
      word and sentence is text, and the linear fallback when the resolver
      raises. Either way one well-formed, non-overlapping entry per sentence. */
  function Stamps(rows: seq<WordRow>, sentences: seq<Cell>, lcs: LongestMatch): (r: seq<Interval>)
    ensures |r| == |sentences| && WellFormed(r) && Chained(r)
    ensures !(AllWordsText(rows) && AllText(sentences)) ==> r == Linear(|sentences|)
  {
    if AllWordsText(rows) && AllText(sentences) then
      var words := Words(rows);
      ResolveShape(words, CleanedWords(words), Prepare(Texts(sentences)), lcs, |sentences|);
      Resolve(words, CleanedWords(words), Prepare(Texts(sentences)), lcs, |sentences|).0
    else
      LinearShape(|sentences|);
      Linear(|sentences|)
  }

  /** The timestamp part of `align_timestamp`: the durations taken before gap
      removal, then the gaps closed in place, then every entry rendered as a
      SubRip time range. */
  method AlignTimestamps(rows: seq<WordRow>, sentences: seq<Cell>, lcs: LongestMatch)
      returns (timestamps: seq<string>, durations: seq<real>)
    ensures |timestamps| == |sentences| && |durations| == |sentences|
    ensures forall k :: 0 <= k < |sentences| ==>
      durations[k] == Stamps(rows, sentences, lcs)[k].end - Stamps(rows, sentences, lcs)[k].start
    ensures forall k :: 0 <= k < |sentences| ==> durations[k] >= 0.0
    ensures forall k :: 0 <= k < |sentences| ==>
      timestamps[k] == SrtRange(CloseGaps(Stamps(rows, sentences, lcs))[k].start, CloseGaps(Stamps(rows, sentences, lcs))[k].end)
  {
    var stamps: seq<Interval>;
    if AllWordsText(rows) && AllText(sentences) {
      stamps := GetSentenceTimestamps(Words(rows), Texts(sentences), lcs);
    } else {
      stamps := LinearFallback(|sentences|);
    }
    assert stamps == Stamps(rows, sentences, lcs);
    durations := seq(|stamps|, k requires 0 <= k < |stamps| => stamps[k].end - stamps[k].start);
    var a := new Interval[|stamps|](k requires 0 <= k < |stamps| => stamps[k]);
    assert a[..] == stamps;
    RemoveGaps(a);
    timestamps := seq(a.Length, k requires 0 <= k < a.Length reads a => SrtRange(a[k].start, a[k].end));
  }

  /** The display polish of `align_timestamp`: full-width commas and full
      stops become blanks, then the text is stripped. */
  function PolishTranslation(text: string): string {
    Strip(Replace(Replace(text, '\U{FF0C}', ' '), '\U{3002}', ' '))
  }

  /** The polished text has neither mark left and no whitespace at either end. */
  lemma PolishTranslationShape(text: string)
    ensures var r := PolishTranslation(text);
      && '\U{FF0C}' !in r && '\U{3002}' !in r
      && (r == [] || (!IsSpace(r[0]) && !IsSpace(r[|r| - 1])))
  {
    var once := Replace(text, '\U{FF0C}', ' ');
    var twice := Replace(once, '\U{3002}', ' ');
    assert '\U{FF0C}' !in twice by {
      forall i | 0 <= i < |twice|
        ensures twice[i] != '\U{FF0C}'
      {
        assert twice[i] == if once[i] == '\U{3002}' then ' ' else once[i];
      }
    }
    StripKeepsOutChar(twice, '\U{FF0C}');
    StripKeepsOutChar(twice, '\U{3002}');
  }
}
