/** A request's fields on their way through a boot: the record rebootnow files, the handover, the
    fetcher's reload, the log it prints, and the parse of that log at the next boot. */
module HandoverLog {
  import opened CStrings
  import opened RecordText
  import opened CyclicReboot
  import P = PreviousRecord
  import Requests
  import R = RecordReading
  import L = LegacyLog
  import T = LegacyLogRoundTrip
  import B = BoundedAppend

  /** The fields of a record that the log carries. */
  function InfoOf(r: Record): L.Info
  {
    L.Info(r.cause.source, r.timestamp, r.cause.customReason, r.cause.otherReason)
  }

  /** The log the fetcher prints at the boot after a request: the file handed over, reloaded. */
  ghost function LogAfter(s: State, q: Request, derived: Record, stamps: seq<string>, reason: string): string
    requires |stamps| == 5
  {
    var file := AfterBoot(AfterRequest(s, q), derived).previous.value;
    B.Concat(T.PreviousLines(stamps, reason, InfoOf(P.Reload(file))))
  }

  /** On one line, without markers, without white space around it; of any length. */
  ghost predicate Neat(s: string)
  {
    T.OneLine(s) && T.MarkerFree(s) && (s != "" ==> !L.IsBlank(s[0]) && !L.IsTrailing(s[|s| - 1]))
  }

  ghost predicate NeatFields(q: Request)
  {
    Neat(q.source) && Neat(q.timestamp) && Neat(q.customReason) && Neat(q.otherReason)
  }

  /** What is left of the text: all of it, its beginning, or nothing. */
  function Kept(r: Record): string
  {
    if R.ValueSize(r) < 433 then L.TrimEnd(Clip(r.cause.otherReason, 128)) else ""
  }

  lemma NeatIsTrimmed(s: string)
    requires Neat(s)
    ensures L.TrimEnd(s) == s
  {
    hide T.MarkerFree;
  }

  lemma ClippedIsLoose(s: string)
    requires Neat(s)
    ensures T.Loose(Clip(s, 128), 128) && T.Loose("", 128) && L.TrimEnd("") == ""
  {
    hide T.MarkerFree;
    var cut := Clip(s, 128);
    T.MarkerFreeParts(s, |cut|);
    assert s[..|cut|] == cut;
    T.ProcessIsMarkerFree(false);
  }

  /** The record handed over is the request's, and the fetcher reloads it but for the last field. */
  lemma ReloadedInfo(s: State, q: Request, derived: Record)
    requires P.IsTimestamp(q.timestamp) && P.Fits(CauseOf(q)) && NeatFields(q)
    ensures var i := InfoOf(P.Reload(AfterBoot(AfterRequest(s, q), derived).previous.value));
            T.LooseInfo(i) && T.Trimmed(i) == InfoOf(RecordOf(q)).(otherReason := Kept(RecordOf(q)))
  {
    hide Text, P.Reload, Judge, ScheduledFor, Requests.Categorise, L.TrimEnd, Neat, Plain, Clip;
    assert AfterBoot(AfterRequest(s, q), derived).previous == Some(Text(RecordOf(q)));
    P.ReloadExactly(RecordOf(q));
    NeatIsTrimmed(q.source);
    NeatIsTrimmed(q.timestamp);
    NeatIsTrimmed(q.customReason);
    ClippedIsLoose(q.source);
    ClippedIsLoose(q.customReason);
    ClippedIsLoose(q.otherReason);
    assert T.Loose(q.timestamp, 64) by { NeatIsLoose(q.timestamp, 64); }
  }

  lemma NeatIsLoose(s: string, size: nat)
    requires Neat(s) && |s| < size
    ensures T.Loose(s, size)
  {
  }

  /** Through a handover boot and its log a request's fields come back at the next boot's parse,
      the text as far as it is kept: all of them exactly when the text fits the fetcher's buffer
      and is empty or the values together stay below 433 characters. */
  lemma FieldsSurviveExactly(s: State, q: Request, derived: Record, stamps: seq<string>, reason: string, info: L.Info)
    requires P.IsTimestamp(q.timestamp) && P.Fits(CauseOf(q)) && NeatFields(q)
    requires |stamps| == 5 && T.CleanStamps(stamps) && T.MarkerFree(reason) && T.OneLine(reason)
    ensures var parsed := L.Parsed(info, L.LinesOf(LogAfter(s, q, derived, stamps, reason)));
            && parsed == Some(InfoOf(RecordOf(q)).(otherReason := Kept(RecordOf(q))))
            && (parsed == Some(InfoOf(RecordOf(q))) <==>
                  |q.otherReason| < 128 && (q.otherReason == "" || R.ValueSize(RecordOf(q)) < 433))
  {
    hide T.CleanStamps, T.MarkerFree, T.OneLine, T.LooseInfo, L.Parsed, L.LinesOf, P.Reload, L.TrimEnd;
    hide T.PreviousLines, P.Fits, Neat, Text, Judge, AfterVerdict, Requests.Categorise;
    ReloadedInfo(s, q, derived);
    var i := InfoOf(P.Reload(AfterBoot(AfterRequest(s, q), derived).previous.value));
    T.PreviousLogTrims(info, stamps, reason, i);
    KeptExactly(RecordOf(q));
  }

  lemma KeptExactly(r: Record)
    requires Neat(r.cause.otherReason)
    ensures Kept(r) == r.cause.otherReason <==>
              |r.cause.otherReason| < 128 && (r.cause.otherReason == "" || R.ValueSize(r) < 433)
  {
    NeatIsTrimmed(r.cause.otherReason);
    hide L.TrimEnd;
  }
}
