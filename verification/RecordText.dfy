/** The reboot record as the text both programs print, and the strstr/strchr reader of that text. */
module RecordText {
  import opened CStrings

  /** What identifies a reboot: the four fields the loop detection compares. */
  datatype Cause = Cause(source: string, reason: string, customReason: string, otherReason: string)

  datatype Record = Record(timestamp: string, cause: Cause)

  const QUOTE: char := '\"'

  predicate QuoteFree(s: string) { QUOTE !in s }

  predicate Plain(s: string) { QUOTE !in s && NUL !in s }

  // ----- text cut at its quotes

  predicate AllQuoteFree(segs: seq<string>) { forall i :: 0 <= i < |segs| ==> QuoteFree(segs[i]) }

  /** Segments written with a quote between each two. */
  function Join(segs: seq<string>): string
    requires segs != []
  {
    if |segs| == 1 then segs[0] else segs[0] + [QUOTE] + Join(segs[1..])
  }

  /** The text cut at every quote. */
  function Split(text: string): (segs: seq<string>)
    ensures segs != [] && AllQuoteFree(segs)
    ensures Join(segs) == text
  {
    if text == "" then [""]
    else
      var rest := Split(text[1..]);
      if text[0] == QUOTE then
        var segs := [""] + rest;
        assert segs[1..] == rest;
        assert text == "" + [QUOTE] + text[1..];
        segs
      else
        var segs := [[text[0]] + rest[0]] + rest[1..];
        assert segs[1..] == rest[1..];
        assert Join(segs) == [text[0]] + Join(rest);
        segs
  }

  lemma {:induction false} SplitJoin(segs: seq<string>)
    requires segs != [] && AllQuoteFree(segs)
    ensures Split(Join(segs)) == segs
    decreases |segs|, |segs[0]|
  {
    var text := Join(segs);
    if segs[0] != "" {
      var tail := [segs[0][1..]] + segs[1..];
      assert tail[1..] == segs[1..];
      assert text == [segs[0][0]] + Join(tail);
      assert text[1..] == Join(tail);
      SplitJoin(tail);
      assert segs[0] == [segs[0][0]] + tail[0];
    } else if |segs| > 1 {
      assert text[1..] == Join(segs[1..]);
      SplitJoin(segs[1..]);
      assert segs == [""] + segs[1..];
    } else {
      assert segs == [""];
    }
  }

  /** Reading the segments by hand: the value after the first key that is followed by a colon,
      provided the value is closed by a quote. */
  function Lookup(segs: seq<string>, key: string): Option<string>
  {
    if |segs| < 4 then None
    else if segs[1] == key && segs[2] == ":" then
      if |segs| == 4 then None else Some(segs[3])
    else Lookup(segs[1..], key)
  }

  // ----- extract_json_value

  function Pattern(key: string): string { [QUOTE] + key + "\":\"" }

  /** The part of extract_json_value before the copy: first pattern, then up to the next quote. */
  function RawValue(buf: string, pattern: string): (r: Option<string>)
    ensures r.Some? ==> QuoteFree(r.value)
  {
    match Find(buf, pattern)
    case None => None
    case Some(i) =>
      var p := buf[i + |pattern|..];
      match Until(p, QUOTE)
      case None => None
      case Some(len) => Some(p[..len])
  }

  /** The value extract_json_value leaves in a buffer of `size` bytes, if it returns 0. */
  function Extract(buf: string, key: string, size: nat): (r: Option<string>)
    requires size > 0
    ensures r.Some? ==> QuoteFree(r.value) && |r.value| < size
  {
    match RawValue(buf, Clip(Pattern(key), 128))
    case None => None
    case Some(v) => Some(Clip(v, size))
  }

  /** A buffer that holds the C string `s`. */
  ghost predicate Holds(out: array<char>, s: string)
    reads out
  {
    |s| < out.Length && out[..|s|] == s && out[|s|] == NUL
  }

  /** extract_json_value, which fills the caller's buffer or leaves it alone. */
  method ExtractJsonValue(buf: string, key: string, out: array<char>) returns (rc: int)
    modifies out
    ensures out.Length == 0 ==> rc == -1
    ensures out.Length > 0 ==> (rc == 0 <==> Extract(buf, key, out.Length).Some?)
    ensures rc == 0 ==> out.Length > 0 && Holds(out, Extract(buf, key, out.Length).value)
    ensures rc != 0 ==> rc == -1 && out[..] == old(out[..])
  {
    if out.Length == 0 { return -1; }
    var pattern := Clip(Pattern(key), 128);
    var at := Find(buf, pattern);
    if at.None? { return -1; }
    var p := buf[at.value + |pattern|..];
    var q := Until(p, QUOTE);
    if q.None? { return -1; }
    var len := q.value;
    if len >= out.Length { len := out.Length - 1; }
    for k := 0 to len
      invariant out[..k] == p[..k]
    {
      out[k] := p[k];
    }
    out[len] := NUL;
    return 0;
  }

  // ----- the printers

  /** The keys and values of a record in the order both programs print them. */
  function Fields(r: Record): seq<(string, string)>
  {
    [("timestamp", r.timestamp), ("source", r.cause.source), ("reason", r.cause.reason),
     ("customReason", r.cause.customReason), ("otherReason", r.cause.otherReason)]
  }

  /** What one fprintf adds: `"key":"value"` and the end of its line. */
  function Line(key: string, value: string, end: string): string
  {
    [QUOTE] + key + [QUOTE] + ":" + [QUOTE] + value + [QUOTE] + end
  }

  function LineEnd(last: bool): string { if last then "\n" else ",\n" }

  function Lines(fs: seq<(string, string)>): string
  {
    if fs == [] then "" else Line(fs[0].0, fs[0].1, LineEnd(|fs| == 1)) + Lines(fs[1..])
  }

  function Text(r: Record): string { "{\n" + Lines(Fields(r)) + "}\n" }

  /** The seven fprintf calls of rebootnow and of the fetcher. */
  method WriteRecord(r: Record) returns (file: string)
    ensures file == Text(r)
  {
    hide Line, Lines;
    ghost var fs, all := Fields(r), "{\n" + Lines(Fields(r));
    file := "{\n";
    assert fs[0..] == fs;
    PrintStep(all, file, fs, 0);
    file := file + Line("timestamp", r.timestamp, ",\n");
    PrintStep(all, file, fs, 1);
    file := file + Line("source", r.cause.source, ",\n");
    PrintStep(all, file, fs, 2);
    file := file + Line("reason", r.cause.reason, ",\n");
    PrintStep(all, file, fs, 3);
    file := file + Line("customReason", r.cause.customReason, ",\n");
    PrintStep(all, file, fs, 4);
    file := file + Line("otherReason", r.cause.otherReason, "\n");
    NoLines(fs[5..]);
    file := file + "}\n";
  }

  /** With the first k fields printed, printing the next one leaves the rest. */
  lemma PrintStep(all: string, file: string, fs: seq<(string, string)>, k: nat)
    requires k < |fs| && all == file + Lines(fs[k..])
    ensures all == file + Line(fs[k].0, fs[k].1, LineEnd(k == |fs| - 1)) + Lines(fs[k + 1..])
  {
    hide Line;
    assert fs[k..][1..] == fs[k + 1..] && fs[k..][0] == fs[k];
  }

  lemma NoLines(fs: seq<(string, string)>)
    requires fs == []
    ensures Lines(fs) == ""
  {
  }

  // ----- the printed text cut at its quotes

  /** The segments of the lines of `fs`, the first one starting with `head`, the last ending with `tail`. */
  function Segments(head: string, fs: seq<(string, string)>, tail: string): (segs: seq<string>)
    ensures |segs| == 4 * |fs| + 1 && segs[0] == if fs == [] then head + tail else head
    decreases |fs|
  {
    if fs == [] then [head + tail]
    else [head, fs[0].0, ":", fs[0].1] + Segments(LineEnd(|fs| == 1), fs[1..], tail)
  }

  lemma JoinLine(head: string, key: string, value: string, rest: seq<string>)
    requires rest != []
    ensures Join([head, key, ":", value] + rest) == head + Line(key, value, Join(rest))
  {
    var all := [head, key, ":", value] + rest;
    assert all[1..] == [key, ":", value] + rest;
    assert all[2..] == [":", value] + rest && all[1..][1..] == all[2..];
    assert all[3..] == [value] + rest && all[2..][1..] == all[3..];
    assert all[4..] == rest && all[3..][1..] == all[4..];
    assert Join(all[3..]) == value + [QUOTE] + Join(rest);
    assert Join(all[2..]) == ":" + [QUOTE] + Join(all[3..]);
    assert Join(all[1..]) == key + [QUOTE] + Join(all[2..]);
  }

  lemma {:induction false} LinesSegments(head: string, fs: seq<(string, string)>, tail: string)
    ensures Join(Segments(head, fs, tail)) == head + Lines(fs) + tail
    decreases |fs|
  {
    if fs != [] {
      var end := LineEnd(|fs| == 1);
      LinesSegments(end, fs[1..], tail);
      JoinLine(head, fs[0].0, fs[0].1, Segments(end, fs[1..], tail));
      assert Line(fs[0].0, fs[0].1, end + Lines(fs[1..]) + tail) == Line(fs[0].0, fs[0].1, end) + Lines(fs[1..]) + tail;
    }
  }

  function RecordSegments(r: Record): seq<string> { Segments("{\n", Fields(r), "}\n") }

  lemma TextSegments(r: Record)
    ensures Text(r) == Join(RecordSegments(r))
  {
    LinesSegments("{\n", Fields(r), "}\n");
  }
}
