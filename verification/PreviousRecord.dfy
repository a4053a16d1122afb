/** The two readers of previousreboot.info: rebootnow's read_previous_reboot_info with its strcmp
    test, and the fetcher's reload of the record it was handed over. */
module PreviousRecord {
  import opened CStrings
  import opened RecordText
  import opened RecordReading

  const FILE_BUFFER: nat := 4096
  const FETCHER_BUFFER: nat := 512

  /** A buffer of `size` bytes filled by fread from a file and terminated. */
  function Loaded(file: string, size: nat): (buf: string)
    requires size > 0
    ensures NUL !in buf
  {
    CStr(Take(file, size - 1))
  }

  /** The fields rebootnow reads back, when all four are there. */
  function ReadPrevious(file: string): (r: Option<Cause>)
    ensures r.Some? ==> Fits(r.value)
  {
    var buf := Loaded(file, FILE_BUFFER);
    var s, n := Extract(buf, "source", 128), Extract(buf, "reason", 128);
    var c, o := Extract(buf, "customReason", 128), Extract(buf, "otherReason", 256);
    if s.Some? && n.Some? && c.Some? && o.Some? then
      ExtractPlain(buf, "source", 128);
      ExtractPlain(buf, "reason", 128);
      ExtractPlain(buf, "customReason", 128);
      ExtractPlain(buf, "otherReason", 256);
      Some(Cause(s.value, n.value, c.value, o.value))
    else None
  }

  /** Fields that survive the trip through the file: no quote, no NUL, within rebootnow's buffers. */
  predicate Fits(c: Cause)
  {
    && Plain(c.source) && Plain(c.reason) && Plain(c.customReason) && Plain(c.otherReason)
    && |c.source| < 128 && |c.reason| < 128 && |c.customReason| < 128 && |c.otherReason| < 256
  }

  /** A timestamp as strftime leaves it in a 64-byte buffer. */
  predicate IsTimestamp(ts: string) { Plain(ts) && |ts| < 64 }

  lemma ExtractPlain(buf: string, key: string, size: nat)
    requires size > 0 && NUL !in buf && Extract(buf, key, size).Some?
    ensures Plain(Extract(buf, key, size).value)
  {
    var pattern := Clip(Pattern(key), 128);
    var p := buf[Find(buf, pattern).value + |pattern|..];
    assert forall c :: c in p ==> c in buf;
    var v := RawValue(buf, pattern).value;
    assert forall c :: c in v ==> c in p;
  }

  /** A buffer that holds the value, or is as it was without one. */
  ghost predicate Filled(out: array<char>, value: Option<string>, before: seq<char>)
    reads out
  {
    if value.Some? then Holds(out, value.value) else out[..] == before
  }

  /** read_previous_reboot_info, into the caller's five buffers. */
  method ReadPreviousRebootInfo(file: Option<string>, source: array<char>, reason: array<char>,
                                custom: array<char>, other: array<char>, ts: array<char>) returns (rc: int)
    requires source.Length == 128 && reason.Length == 128 && custom.Length == 128 && other.Length == 256 && ts.Length == 64
    requires source != reason && source != custom && source != other && source != ts && reason != custom
    requires reason != other && reason != ts && custom != other && custom != ts && other != ts
    modifies source, reason, custom, other, ts
    ensures rc == 0 || rc == -1
    ensures rc == 0 <==> file.Some? && ReadPrevious(file.value).Some?
    ensures file.None? ==> source[..] == old(source[..]) && reason[..] == old(reason[..]) && custom[..] == old(custom[..])
                           && other[..] == old(other[..]) && ts[..] == old(ts[..])
    ensures file.Some? ==>
              var buf := Loaded(file.value, FILE_BUFFER);
              && Filled(source, Extract(buf, "source", 128), old(source[..]))
              && Filled(reason, Extract(buf, "reason", 128), old(reason[..]))
              && Filled(custom, Extract(buf, "customReason", 128), old(custom[..]))
              && Filled(other, Extract(buf, "otherReason", 256), old(other[..]))
              && Filled(ts, Extract(buf, "timestamp", 64), old(ts[..]))
  {
    if file.None? { return -1; }
    hide Extract, Loaded;
    var buf := Loaded(file.value, FILE_BUFFER);
    var rs := ExtractJsonValue(buf, "source", source);
    var rr := ExtractJsonValue(buf, "reason", reason);
    var rcu := ExtractJsonValue(buf, "customReason", custom);
    var ro := ExtractJsonValue(buf, "otherReason", other);
    var _ := ExtractJsonValue(buf, "timestamp", ts);
    rc := if rs == 0 && rr == 0 && rcu == 0 && ro == 0 then 0 else -1;
  }

  // ----- what is read back

  lemma TextPlain(r: Record)
    requires NUL !in r.timestamp && NUL !in r.cause.source && NUL !in r.cause.reason
    requires NUL !in r.cause.customReason && NUL !in r.cause.otherReason
    ensures NUL !in Text(r)
  {
    LinesPlain(Fields(r));
  }

  predicate PlainRecord(r: Record)
  {
    Plain(r.timestamp) && Plain(r.cause.source) && Plain(r.cause.reason)
    && Plain(r.cause.customReason) && Plain(r.cause.otherReason)
  }

  /** Reading one field of a printed record through a buffer of `size` bytes. */
  lemma FieldThroughBuffer(r: Record, size: nat, key: string)
    requires PlainRecord(r) && size > 0 && IsKey(key) && |key| < 100 && FieldValue(Fields(r), key).Some?
    ensures RawValue(Loaded(Text(r), size), Clip(Pattern(key), 128))
         == if ClosedAt(2, Fields(r), key) < size - 1 then FieldValue(Fields(r), key) else None
  {
    TextPlain(r);
    assert NUL !in Take(Text(r), size - 1);
    FieldRecovered(r, size - 1, key);
  }

  lemma FieldRead(r: Record, size: nat, key: string, outSize: nat)
    requires PlainRecord(r) && size > 0 && outSize > 0 && IsKey(key) && |key| < 100 && FieldValue(Fields(r), key).Some?
    ensures Extract(Loaded(Text(r), size), key, outSize)
         == if ClosedAt(2, Fields(r), key) < size - 1 then Some(Clip(FieldValue(Fields(r), key).value, outSize)) else None
  {
    FieldThroughBuffer(r, size, key);
  }

  /** A cause as rebootnow's buffers cut it. */
  function Clipped(c: Cause): Cause
  {
    Cause(Clip(c.source, 128), Clip(c.reason, 128), Clip(c.customReason, 128), Clip(c.otherReason, 256))
  }

  /** What is read back from a printed record without quotes, of any size. */
  lemma PrintThenReadPlain(r: Record)
    requires PlainRecord(r)
    ensures ReadPrevious(Text(r)) == if ValueSize(r) < 4017 then Some(Clipped(r.cause)) else None
  {
    hide Extract, RawValue, Find, Text, Loaded, Fields, Clip, Plain;
    ClosingQuotes(r);
    FieldRead(r, FILE_BUFFER, "source", 128);
    FieldRead(r, FILE_BUFFER, "reason", 128);
    FieldRead(r, FILE_BUFFER, "customReason", 128);
    FieldRead(r, FILE_BUFFER, "otherReason", 256);
  }

  /** Print, then read: every field that fits comes back exactly, even one that equals a key. */
  lemma PrintThenRead(r: Record)
    requires IsTimestamp(r.timestamp) && Fits(r.cause)
    ensures ReadPrevious(Text(r)) == Some(r.cause)
  {
    hide ReadPrevious, Text;
    PrintThenReadPlain(r);
  }

  /** The strcmp tests on the file's bytes decide equality of the records. */
  lemma BytesDecideEquality(previous: Record, current: Cause)
    requires IsTimestamp(previous.timestamp) && Fits(previous.cause)
    ensures ReadPrevious(Text(previous)) == Some(current) <==> current == previous.cause
  {
    PrintThenRead(previous);
  }

  /** A request is recognised as a repetition of itself exactly when its fields fit. */
  lemma RecognisesItself(r: Record)
    requires IsTimestamp(r.timestamp)
    ensures ReadPrevious(Text(r)) == Some(r.cause) <==> Fits(r.cause)
  {
    if Fits(r.cause) { PrintThenRead(r); }
  }

  /** A quote in one field is enough for a cause to go unrecognised. */
  lemma QuotedSourceUnrecognised(ts: string)
    requires IsTimestamp(ts)
    ensures var c := Cause("a\"b", "FIRMWARE_FAILURE", "Unknown", "Unknown");
            ReadPrevious(Text(Record(ts, c))) != Some(c)
  {
    var c := Cause("a\"b", "FIRMWARE_FAILURE", "Unknown", "Unknown");
    assert c.source[1] == QUOTE;
    RecognisesItself(Record(ts, c));
  }

  // ----- records with quotes in their fields

  /** The part of a value before its first quote. */
  function BeforeQuote(s: string): (r: string)
    ensures r <= s && QuoteFree(r)
  {
    match Until(s, QUOTE) case Some(k) => s[..k] case None => s
  }

  /** A buffer that starts like a quote-free record, past the closing quote of a field, yields that field. */
  lemma ReadThrough(bare: Record, n: nat, buf: string, key: string, outSize: nat)
    requires RecordQuoteFree(bare) && IsKey(key) && |key| < 100 && FieldValue(Fields(bare), key).Some? && outSize > 0
    requires ClosedAt(2, Fields(bare), key) < n && Take(Text(bare), n) <= buf
    ensures Extract(buf, key, outSize) == Some(Clip(FieldValue(Fields(bare), key).value, outSize))
  {
    hide RawValue, Text, Fields, Find, Take;
    FieldRecovered(bare, n, key);
    RawValueExtends(Take(Text(bare), n), buf, Pattern(key));
    assert |Pattern(key)| < 128;
  }

  lemma TextLines(r: Record)
    ensures Text(r) == "{\n" + Line("timestamp", r.timestamp, ",\n") + Line("source", r.cause.source, ",\n")
                     + Line("reason", r.cause.reason, ",\n") + Line("customReason", r.cause.customReason, ",\n")
                     + Line("otherReason", r.cause.otherReason, "\n") + "}\n"
  {
    hide Line;
    var fs := Fields(r);
    assert fs[1..][1..] == fs[2..] && fs[2..][1..] == fs[3..] && fs[3..][1..] == fs[4..] && fs[4..][1..] == [];
    assert Lines(fs[4..]) == Line("otherReason", r.cause.otherReason, "\n") + "";
    assert Lines(fs[3..]) == Line("customReason", r.cause.customReason, ",\n") + Lines(fs[4..]);
    assert Lines(fs[2..]) == Line("reason", r.cause.reason, ",\n") + Lines(fs[3..]);
    assert Lines(fs[1..]) == Line("source", r.cause.source, ",\n") + Lines(fs[2..]);
  }

  /** A line is its pattern, the value, a quote and the end. */
  lemma LineParts(key: string, value: string, end: string)
    ensures Line(key, value, end) == Pattern(key) + value + [QUOTE] + end
  {
  }

  /** The printed record up to the value of its reason, and up to the value of its last field. */
  function ReasonFront(r: Record): string
  {
    "{\n" + Line("timestamp", r.timestamp, ",\n") + Line("source", r.cause.source, ",\n") + Pattern("reason")
  }

  function LastFront(r: Record): string
  {
    "{\n" + Line("timestamp", r.timestamp, ",\n") + Line("source", r.cause.source, ",\n")
    + Line("reason", r.cause.reason, ",\n") + Line("customReason", r.cause.customReason, ",\n") + Pattern("otherReason")
  }

  lemma Fronts(r: Record)
    ensures ReasonFront(r) + r.cause.reason + [QUOTE] <= Text(r)
    ensures LastFront(r) + r.cause.otherReason + [QUOTE] + "\n}\n" == Text(r)
  {
    hide Line, Text, Pattern;
    TextLines(r);
    LineParts("reason", r.cause.reason, ",\n");
    LineParts("otherReason", r.cause.otherReason, "\n");
    var rest := ",\n" + Line("customReason", r.cause.customReason, ",\n") + Line("otherReason", r.cause.otherReason, "\n") + "}\n";
    assert Text(r) == ReasonFront(r) + r.cause.reason + [QUOTE] + rest;
    assert "\n" + "}\n" == "\n}\n";
  }

  lemma FrontSizes(r: Record)
    ensures |ReasonFront(r)| == 41 + |r.timestamp| + |r.cause.source|
    ensures |LastFront(r)| == 78 + ValueSize(r) - |r.cause.otherReason|
  {
  }

  lemma UpToQuote(s: string)
    ensures BeforeQuote(s) + [QUOTE] <= s + [QUOTE]
  {
  }

  lemma PrefixAppends(a: string, b: string, c: string)
    requires b <= c
    ensures a + b <= a + c
  {
  }

  lemma PrefixOfLoaded(part: string, file: string, size: nat)
    requires part <= file && |part| < size && NUL !in part
    ensures part <= Loaded(file, size)
  {
    var text := Take(file, size - 1);
    assert part <= text;
  }

  /** Source and reason are read back, the reason up to its first quote, whatever is printed after it. */
  lemma SourceAndReasonRecovered(r: Record)
    requires Plain(r.timestamp) && Plain(r.cause.source) && NUL !in r.cause.reason
    requires |r.timestamp| + |r.cause.source| + |r.cause.reason| < 4000
    ensures var buf := Loaded(Text(r), FILE_BUFFER);
            && Extract(buf, "source", 128) == Some(Clip(r.cause.source, 128))
            && Extract(buf, "reason", 128) == Some(Clip(BeforeQuote(r.cause.reason), 128))
  {
    hide Extract, Text, Fields, ReasonFront, LastFront, Loaded, Clip, BeforeQuote;
    var word := BeforeQuote(r.cause.reason);
    var bare := Record(r.timestamp, Cause(r.cause.source, word, "", ""));
    var part := ReasonFront(r) + word + [QUOTE];
    Fronts(r);
    Fronts(bare);
    SameReasonFront(r, bare);
    FrontSizes(r);
    UpToQuote(r.cause.reason);
    PrefixAppends(ReasonFront(r), word + [QUOTE], r.cause.reason + [QUOTE]);
    assert ReasonFront(r) + (word + [QUOTE]) == part;
    assert ReasonFront(r) + (r.cause.reason + [QUOTE]) == ReasonFront(r) + r.cause.reason + [QUOTE];
    assert Take(Text(bare), |part|) == part;
    ReasonFrontPlain(r);
    PrefixOfLoaded(part, Text(r), FILE_BUFFER);
    ClosingQuotes(bare);
    ReadThrough(bare, |part|, Loaded(Text(r), FILE_BUFFER), "source", 128);
    ReadThrough(bare, |part|, Loaded(Text(r), FILE_BUFFER), "reason", 128);
  }

  lemma SameReasonFront(a: Record, b: Record)
    requires a.timestamp == b.timestamp && a.cause.source == b.cause.source
    ensures ReasonFront(a) == ReasonFront(b)
  {
  }

  lemma ReasonFrontPlain(r: Record)
    requires NUL !in r.timestamp && NUL !in r.cause.source
    ensures NUL !in ReasonFront(r)
  {
  }

  /** Two records that differ behind a quote in the last field start alike, through that quote. */
  lemma AlikeThroughQuote(r: Record, x: string, y: string)
    requires r.cause.otherReason == x + [QUOTE] + y
    ensures var bare := r.(cause := r.cause.(otherReason := x));
            var n := 79 + ValueSize(bare);
            n < |Text(bare)| && Text(bare)[..n] <= Text(r)
  {
    hide Text, LastFront;
    var bare := r.(cause := r.cause.(otherReason := x));
    var part := LastFront(r) + x + [QUOTE];
    assert LastFront(bare) == LastFront(r) by { SameLastFront(r, bare); }
    Fronts(r);
    Fronts(bare);
    FrontSizes(bare);
    assert LastFront(r) + (x + [QUOTE] + y) + [QUOTE] + "\n}\n" == part + (y + [QUOTE] + "\n}\n");
    assert part <= Text(r) && part <= Text(bare);
  }

  /** A quote in the last field cuts it there: the rest of the field is never looked at. */
  lemma LastFieldCutAtQuote(r: Record, x: string, y: string)
    requires PlainRecord(r.(cause := r.cause.(otherReason := x))) && r.cause.otherReason == x + [QUOTE] + y
    requires ValueSize(r.(cause := r.cause.(otherReason := x))) < 4017
    ensures ReadPrevious(Text(r)) == Some(Clipped(r.cause.(otherReason := x)))
  {
    hide Extract, Text, Fields, Loaded, Clip, ReadPrevious, PlainRecord;
    var bare := r.(cause := r.cause.(otherReason := x));
    var n := 79 + ValueSize(bare);
    AlikeThroughQuote(r, x, y);
    PlainHasNoNul(bare);
    TextPlain(bare);
    PrefixOfLoaded(Text(bare)[..n], Text(r), FILE_BUFFER);
    ClosingQuotes(bare);
    var buf := Loaded(Text(r), FILE_BUFFER);
    ReadThrough(bare, n, buf, "source", 128);
    ReadThrough(bare, n, buf, "reason", 128);
    ReadThrough(bare, n, buf, "customReason", 128);
    ReadThrough(bare, n, buf, "otherReason", 256);
    ReadsAll(Text(r));
  }

  /** rebootnow reads a file when all four fields are found. */
  lemma ReadsAll(file: string)
    ensures var buf := Loaded(file, FILE_BUFFER);
            var s, n := Extract(buf, "source", 128), Extract(buf, "reason", 128);
            var c, o := Extract(buf, "customReason", 128), Extract(buf, "otherReason", 256);
            ReadPrevious(file) == if s.Some? && n.Some? && c.Some? && o.Some? then Some(Cause(s.value, n.value, c.value, o.value)) else None
  {
    hide Extract, Loaded;
  }

  lemma SameLastFront(a: Record, b: Record)
    requires a.timestamp == b.timestamp && a.cause.(otherReason := "") == b.cause.(otherReason := "")
    ensures LastFront(a) == LastFront(b)
  {
  }

  lemma PlainHasNoNul(r: Record)
    requires PlainRecord(r)
    ensures RecordQuoteFree(r)
    ensures NUL !in r.timestamp && NUL !in r.cause.source && NUL !in r.cause.reason
    ensures NUL !in r.cause.customReason && NUL !in r.cause.otherReason
  {
  }

  /** A pattern that is printed somewhere, with a quote behind it, is found with some value. */
  lemma PrintedIsFound(before: string, pattern: string, value: string, after: string)
    ensures RawValue(before + pattern + value + [QUOTE] + after, pattern).Some?
  {
    var text := before + pattern + value + [QUOTE] + after;
    assert text[|before|..] == pattern + (value + [QUOTE] + after);
    assert OccursAt(text, pattern, |before|);
    var p := text[Find(text, pattern).value + |pattern|..];
    var k := |before| + |value| - Find(text, pattern).value;
    assert p[k] == text[|before| + |pattern| + |value|] == QUOTE;
  }

  lemma LineIsFound(before: string, key: string, value: string, end: string, after: string, outSize: nat)
    requires |key| < 100 && outSize > 0
    ensures Extract(before + Line(key, value, end) + after, key, outSize).Some?
  {
    hide RawValue;
    LineParts(key, value, end);
    PrintedIsFound(before, Pattern(key), value, end + after);
    assert before + Line(key, value, end) + after == before + Pattern(key) + value + [QUOTE] + (end + after);
  }

  lemma Regrouped(a: string, l1: string, l2: string, l3: string, l4: string, z: string)
    ensures a + l1 + l2 + l3 + l4 + z == a + l1 + (l2 + l3 + l4 + z)
    ensures a + l1 + l2 + l3 + l4 + z == (a + l1) + l2 + (l3 + l4 + z)
    ensures a + l1 + l2 + l3 + l4 + z == (a + l1 + l2) + l3 + (l4 + z)
  {
  }

  lemma LoadedWhole(r: Record)
    requires NUL !in r.timestamp && NUL !in r.cause.source && NUL !in r.cause.reason
    requires NUL !in r.cause.customReason && NUL !in r.cause.otherReason && ValueSize(r) < 4000
    ensures Loaded(Text(r), FILE_BUFFER) == Text(r)
  {
    hide Text;
    TextPlain(r);
    assert |Text(r)| == 82 + ValueSize(r) by {
      hide LastFront;
      Fronts(r);
      FrontSizes(r);
    }
  }

  /** Whatever its fields contain, a printed record without NUL that the buffer holds is readable. */
  lemma AlwaysReadable(r: Record)
    requires NUL !in r.timestamp && NUL !in r.cause.source && NUL !in r.cause.reason
    requires NUL !in r.cause.customReason && NUL !in r.cause.otherReason && ValueSize(r) < 4000
    ensures ReadPrevious(Text(r)).Some?
  {
    LoadedWhole(r);
    hide Extract, Line, Text, Loaded, ReadPrevious, ValueSize;
    var c := r.cause;
    var a, z := "{\n" + Line("timestamp", r.timestamp, ",\n"), "}\n";
    var l1, l2 := Line("source", c.source, ",\n"), Line("reason", c.reason, ",\n");
    var l3, l4 := Line("customReason", c.customReason, ",\n"), Line("otherReason", c.otherReason, "\n");
    TextLines(r);
    Regrouped(a, l1, l2, l3, l4, z);
    LineIsFound(a, "source", c.source, ",\n", l2 + l3 + l4 + z, 128);
    LineIsFound(a + l1, "reason", c.reason, ",\n", l3 + l4 + z, 128);
    LineIsFound(a + l1 + l2, "customReason", c.customReason, ",\n", l4 + z, 128);
    LineIsFound(a + l1 + l2 + l3, "otherReason", c.otherReason, "\n", z, 256);
    ReadsAll(Text(r));
  }

  // ----- the fetcher's reload

  /** The record update_previous_reboot_log_fields loads: fields it cannot find stay empty. */
  function Reload(file: string): Record
  {
    var buf := Loaded(file, FETCHER_BUFFER);
    Record(OrEmpty(Extract(buf, "timestamp", 64)),
           Cause(OrEmpty(Extract(buf, "source", 128)), OrEmpty(Extract(buf, "reason", 128)),
                 OrEmpty(Extract(buf, "customReason", 128)), OrEmpty(Extract(buf, "otherReason", 128))))
  }

  function OrEmpty(o: Option<string>): string { if o.Some? then o.value else "" }

  /** Fields within the fetcher's own RebootInfo buffers. */
  predicate FitsFetcher(r: Record)
  {
    IsTimestamp(r.timestamp) && Fits(r.cause) && |r.cause.otherReason| < 128
  }

  /** The fetcher gets a record back whole exactly when its fields fit and the 512-byte buffer does
      not cost it the last one: that field is empty, or the values together stay below 433 characters. */
  lemma ReloadExactly(r: Record)
    ensures Reload(Text(r)) == r <==> FitsFetcher(r) && (r.cause.otherReason == "" || ValueSize(r) < 433)
    ensures IsTimestamp(r.timestamp) && Fits(r.cause) ==>
              Reload(Text(r)) == r.(cause := r.cause.(otherReason := if ValueSize(r) < 433 then Clip(r.cause.otherReason, 128) else ""))
  {
    hide Extract, RawValue, Find, Text, Loaded, Fields;
    if IsTimestamp(r.timestamp) && Fits(r.cause) { ReloadFitting(r); }
    if Reload(Text(r)) == r { ReloadFits(Text(r)); }
  }

  lemma ReloadFitting(r: Record)
    requires IsTimestamp(r.timestamp) && Fits(r.cause)
    ensures Reload(Text(r)) == r.(cause := r.cause.(otherReason := if ValueSize(r) < 433 then Clip(r.cause.otherReason, 128) else ""))
  {
    hide Extract, RawValue, Find, Text, Loaded, Fields;
    ClosingQuotes(r);
    FieldRead(r, FETCHER_BUFFER, "timestamp", 64);
    FieldRead(r, FETCHER_BUFFER, "source", 128);
    FieldRead(r, FETCHER_BUFFER, "reason", 128);
    FieldRead(r, FETCHER_BUFFER, "customReason", 128);
    FieldRead(r, FETCHER_BUFFER, "otherReason", 128);
  }

  lemma LoadedFieldFits(buf: string, key: string, size: nat)
    requires size > 0 && NUL !in buf
    ensures Plain(OrEmpty(Extract(buf, key, size))) && |OrEmpty(Extract(buf, key, size))| < size
  {
    if Extract(buf, key, size).Some? { ExtractPlain(buf, key, size); }
  }

  lemma ReloadFits(file: string)
    ensures FitsFetcher(Reload(file))
  {
    hide Extract, OrEmpty, Loaded, Plain;
    var buf := Loaded(file, FETCHER_BUFFER);
    LoadedFieldFits(buf, "timestamp", 64);
    LoadedFieldFits(buf, "source", 128);
    LoadedFieldFits(buf, "reason", 128);
    LoadedFieldFits(buf, "customReason", 128);
    LoadedFieldFits(buf, "otherReason", 128);
  }
}
