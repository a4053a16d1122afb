/** What the readers recover from a printed record: the byte level refines the record level. */
module RecordReading {
  import opened CStrings
  import opened RecordText

  // ----- the strstr/strchr search is a lookup among the segments between quotes

  /** The text up to its first quote, and the rest. */
  lemma {:induction false} FirstSegment(text: string)
    ensures var segs := Split(text);
            var w := segs[0];
            && Until(text, QUOTE) == (if |segs| > 1 then Some(|w|) else None)
            && w <= text
            && (|segs| > 1 ==> |w| < |text| && text[|w|] == QUOTE && Split(text[|w| + 1..]) == segs[1..])
            && (|segs| == 1 ==> w == text)
  {
    if text != "" && text[0] != QUOTE {
      FirstSegment(text[1..]);
      var w := Split(text)[0];
      assert w[1..] == Split(text[1..])[0];
      if |Split(text)| > 1 { assert text[|w| + 1..] == text[1..][|w[1..]| + 1..]; }
    }
  }

  lemma FirstQuote(text: string, k: nat)
    requires k < |text| && text[k] == QUOTE && QuoteFree(text[..k])
    ensures Until(text, QUOTE) == Some(k)
  {
    if k > 0 {
      assert text[..k][0] == text[0];
      assert text[1..][..k - 1] == text[..k][1..];
      FirstQuote(text[1..], k - 1);
    }
  }

  /** A quote-free word and its closing quote lead the text exactly when it is the first segment. */
  lemma WordThenQuote(text: string, word: string, more: string)
    requires QuoteFree(word)
    ensures var segs := Split(text);
            word + [QUOTE] + more <= text <==>
              |segs| > 1 && segs[0] == word && |word| < |text| && more <= text[|word| + 1..]
  {
    FirstSegment(text);
    var lead := word + [QUOTE] + more;
    if lead <= text {
      assert text[..|word|] == lead[..|word|] == word;
      assert text[|word|] == lead[|word|];
      FirstQuote(text, |word|);
      assert text[|word| + 1..][..|more|] == lead[|word| + 1..] == more;
    }
    if |Split(text)| > 1 && Split(text)[0] == word && more <= text[|word| + 1..] {
      assert text == word + [QUOTE] + text[|word| + 1..];
    }
  }

  /** The pattern leads the text after a quote exactly when the key and a colon are its first segments. */
  lemma PatternLeads(rest: string, key: string)
    requires QuoteFree(key)
    ensures var segs := Split(rest);
            Pattern(key) <= [QUOTE] + rest <==> |segs| > 2 && segs[0] == key && segs[1] == ":"
    ensures Pattern(key) <= [QUOTE] + rest ==> |key| + 3 <= |rest| && Split(rest[|key| + 3..]) == Split(rest)[2..]
  {
    var colon := ":" + [QUOTE] + "";
    assert Pattern(key) == [QUOTE] + (key + [QUOTE] + colon);
    assert Pattern(key) <= [QUOTE] + rest <==> key + [QUOTE] + colon <= rest by {
      assert Pattern(key)[1..] == key + [QUOTE] + colon;
      assert ([QUOTE] + rest)[1..] == rest;
    }
    WordThenQuote(rest, key, colon);
    FirstSegment(rest);
    var segs := Split(rest);
    if |segs| > 1 && segs[0] == key {
      var tail := rest[|key| + 1..];
      WordThenQuote(tail, ":", "");
      FirstSegment(tail);
      if |segs| > 2 && segs[1] == ":" { assert tail[2..] == rest[|key| + 3..]; }
    }
  }

  lemma LookupIgnoresHead(a: seq<string>, b: seq<string>, key: string)
    requires |a| == |b| > 0 && a[1..] == b[1..]
    ensures Lookup(a, key) == Lookup(b, key)
  {
    if |a| >= 4 {
      assert a[1] == a[1..][0] == b[1] && a[2] == a[1..][1] == b[2] && a[3] == a[1..][2] == b[3];
    }
  }

  /** A match that does not start at the first character is found in the rest. */
  lemma RawValueSkips(text: string, pattern: string)
    requires text != "" && !(pattern <= text)
    ensures RawValue(text, pattern) == RawValue(text[1..], pattern)
  {
    var found := Find(text[1..], pattern);
    if found.Some? {
      var k := found.value + |pattern|;
      assert text[1 + k..] == text[1..][k..];
    }
  }

  /** The value of a search that succeeds at the first character. */
  lemma ValueAtStart(buf: string, pattern: string, value: string)
    requires pattern <= buf && value == buf[|pattern|..]
    ensures RawValue(buf, pattern) == if |Split(value)| > 1 then Some(Split(value)[0]) else None
  {
    FirstSegment(value);
    assert buf[0 + |pattern|..] == value;
    assert value[..|Split(value)[0]|] == Split(value)[0];
  }

  lemma LookupAtStart(segs: seq<string>, key: string)
    requires |segs| > 2 && segs[0] == key && segs[1] == ":"
    ensures Lookup([""] + segs, key) == if |segs| > 3 then Some(segs[2]) else None
  {
    var all := [""] + segs;
    assert all[1] == segs[0] && all[2] == segs[1] && all[3] == segs[2];
  }

  lemma PatternAtStart(rest: string, key: string)
    requires QuoteFree(key) && Pattern(key) <= [QUOTE] + rest
    ensures RawValue([QUOTE] + rest, Pattern(key)) == Lookup([""] + Split(rest), key)
  {
    PatternLeads(rest, key);
    LookupAtStart(Split(rest), key);
    assert ([QUOTE] + rest)[|Pattern(key)|..] == rest[|key| + 3..];
    ValueAtStart([QUOTE] + rest, Pattern(key), rest[|key| + 3..]);
  }

  lemma LookupPastQuote(rest: string, key: string)
    requires QuoteFree(key) && !(Pattern(key) <= [QUOTE] + rest)
    ensures Lookup([""] + Split(rest), key) == Lookup(Split(rest), key)
  {
    PatternLeads(rest, key);
    var segs := Split(rest);
    assert ([""] + segs)[1..] == segs;
    assert |segs| > 2 ==> ([""] + segs)[1] == segs[0] && ([""] + segs)[2] == segs[1];
  }

  lemma LookupPastChar(text: string, key: string)
    requires text != "" && text[0] != QUOTE
    ensures Lookup(Split(text), key) == Lookup(Split(text[1..]), key)
  {
    assert Split(text)[1..] == Split(text[1..])[1..];
    LookupIgnoresHead(Split(text), Split(text[1..]), key);
  }

  /** extract_json_value on any buffer at all is the lookup among the segments between quotes. */
  lemma {:induction false} ExtractIsLookup(buf: string, key: string)
    requires QuoteFree(key)
    ensures RawValue(buf, Pattern(key)) == Lookup(Split(buf), key)
  {
    if buf == "" {
    } else {
      assert buf[0] == QUOTE ==> buf == [QUOTE] + buf[1..] && Split(buf) == [""] + Split(buf[1..]);
      if buf[0] == QUOTE && Pattern(key) <= buf {
        PatternAtStart(buf[1..], key);
      } else {
        assert Pattern(key)[0] == QUOTE;
        RawValueSkips(buf, Pattern(key));
        ExtractIsLookup(buf[1..], key);
        if buf[0] == QUOTE { LookupPastQuote(buf[1..], key); } else { LookupPastChar(buf, key); }
      }
    }
  }

  /** A value found in the beginning of a text is the value found in the whole text. */
  lemma {:induction false} RawValueExtends(part: string, text: string, pattern: string)
    requires part <= text && RawValue(part, pattern).Some?
    ensures RawValue(text, pattern) == RawValue(part, pattern)
  {
    if pattern <= part {
      var p, q := part[|pattern|..], text[|pattern|..];
      var len := Until(p, QUOTE).value;
      assert p <= q && q[..len] == p[..len];
      FirstQuote(q, len);
      assert part[0 + |pattern|..] == p && text[0 + |pattern|..] == q;
    } else {
      assert !(pattern <= text) by {
        OccursBeforeEnd(part, pattern);
      }
      RawValueSkips(part, pattern);
      RawValueSkips(text, pattern);
      RawValueExtends(part[1..], text[1..], pattern);
    }
  }

  lemma OccursBeforeEnd(text: string, pattern: string)
    requires Find(text, pattern).Some?
    ensures |pattern| <= |text|
  {
  }

  // ----- printed records, whole or cut short by the reader's buffer

  /** The segments of the first n characters of a text. */
  function Cut(segs: seq<string>, n: nat): (r: seq<string>)
    requires segs != []
    ensures r != [] && r[0] <= segs[0]
  {
    if n <= |segs[0]| then [segs[0][..n]]
    else if |segs| == 1 then segs
    else [segs[0]] + Cut(segs[1..], n - |segs[0]| - 1)
  }

  function Take(s: string, n: nat): string { if |s| <= n then s else s[..n] }

  lemma {:induction false} CutIsPrefix(segs: seq<string>, n: nat)
    requires segs != [] && AllQuoteFree(segs)
    ensures AllQuoteFree(Cut(segs, n)) && Join(Cut(segs, n)) == Take(Join(segs), n)
  {
    var text := Join(segs);
    if n <= |segs[0]| {
      assert text[..n] == segs[0][..n];
    } else if |segs| > 1 {
      var m := n - |segs[0]| - 1;
      CutIsPrefix(segs[1..], m);
      var c := Cut(segs, n);
      assert c[1..] == Cut(segs[1..], m);
      assert Take(text, n) == segs[0] + [QUOTE] + Take(Join(segs[1..]), m);
    }
  }

  /** Keys the lookup cannot confuse with what stands between the fields. */
  predicate IsKey(key: string)
  {
    QuoteFree(key) && key != "" && key[0] != ':' && key[0] != ',' && key[0] != '\n'
  }

  predicate AllFieldsQuoteFree(fs: seq<(string, string)>)
  {
    forall i :: 0 <= i < |fs| ==> QuoteFree(fs[i].0) && QuoteFree(fs[i].1)
  }

  /** The first field with this key. */
  function FieldValue(fs: seq<(string, string)>, key: string): Option<string>
  {
    if fs == [] then None else if fs[0].0 == key then Some(fs[0].1) else FieldValue(fs[1..], key)
  }

  /** The offset of the quote that closes the value of `key`, when `head` stands before the fields. */
  function ClosedAt(head: nat, fs: seq<(string, string)>, key: string): nat
    requires FieldValue(fs, key).Some?
    decreases |fs|
  {
    var close := head + |fs[0].0| + |fs[0].1| + 4;
    if fs[0].0 == key then close else close + 1 + ClosedAt(|LineEnd(|fs| == 1)|, fs[1..], key)
  }

  lemma LookupMiss(head: string, tail: seq<string>, key: string)
    requires tail != [] && (tail[0] == key ==> |tail| == 1 || tail[1] != ":")
    ensures Lookup([head] + tail, key) == Lookup(tail, key)
  {
    var all := [head] + tail;
    assert all[1..] == tail && all[1] == tail[0];
    assert |tail| > 1 ==> all[2] == tail[1];
  }

  /** Looking past a field with another key. */
  lemma SkipField(head: string, name: string, value: string, rest: seq<string>, key: string)
    requires IsKey(key) && name != key && rest != []
    requires rest[0] != "" ==> rest[0][0] == ',' || rest[0][0] == '\n'
    ensures Lookup([head, name, ":", value] + rest, key) == Lookup(rest, key)
  {
    var b := [name, ":", value] + rest;
    var c := [":", value] + rest;
    var d := [value] + rest;
    assert [head, name, ":", value] + rest == [head] + b && b == [name] + c && c == [":"] + d;
    LookupMiss(head, b, key);
    LookupMiss(name, c, key);
    LookupMiss(":", d, key);
    LookupMiss(value, rest, key);
  }

  lemma HitField(head: string, value: string, rest: seq<string>, key: string)
    requires rest != []
    ensures Lookup([head, key, ":", value] + rest, key) == Some(value)
  {
    var a := [head, key, ":", value] + rest;
    assert a[1] == key && a[2] == ":" && a[3] == value;
  }

  lemma CutStep(head: string, tail: seq<string>, n: nat)
    requires tail != []
    ensures Cut([head] + tail, n) == if n <= |head| then [head[..n]] else [head] + Cut(tail, n - |head| - 1)
  {
    assert ([head] + tail)[1..] == tail;
  }

  lemma CutTwo(a: string, b: string, rest: seq<string>, n: nat)
    requires rest != []
    ensures if n <= |a| + |b| + 1 then |Cut([a, b] + rest, n)| <= 2
            else Cut([a, b] + rest, n) == [a, b] + Cut(rest, n - |a| - |b| - 2)
  {
    hide Cut;
    assert [a, b] + rest == [a] + ([b] + rest);
    CutStep(a, [b] + rest, n);
    if n > |a| {
      CutStep(b, rest, n - |a| - 1);
      if n > |a| + |b| + 1 {
        assert [a] + ([b] + Cut(rest, n - |a| - |b| - 2)) == [a, b] + Cut(rest, n - |a| - |b| - 2);
      }
    }
  }

  /** Cutting inside the first field leaves too little to find anything. */
  lemma CutField(head: string, name: string, value: string, rest: seq<string>, n: nat)
    requires rest != []
    ensures var all := [head, name, ":", value] + rest;
            var close := |head| + |name| + |value| + 4;
            if n <= close then |Cut(all, n)| <= 4
            else Cut(all, n) == [head, name, ":", value] + Cut(rest, n - close - 1)
  {
    var mid := [":", value] + rest;
    assert [head, name, ":", value] + rest == [head, name] + mid;
    CutTwo(head, name, mid, n);
    if n > |head| + |name| + 1 {
      var m := n - |head| - |name| - 2;
      CutTwo(":", value, rest, m);
      if m > |value| + 2 {
        assert [head, name] + ([":", value] + Cut(rest, m - |value| - 3)) == [head, name, ":", value] + Cut(rest, m - |value| - 3);
      }
    }
  }

  lemma ShortCut(segs: seq<string>, key: string)
    requires 0 < |segs| <= 4
    ensures Lookup(segs, key).None?
  {
    if |segs| == 4 { assert |segs[1..]| == 3; }
  }

  /** Of the first n characters of a printed record the reader recovers exactly the fields whose
      closing quote is among them. */
  lemma {:induction false} LookupInCut(head: string, fs: seq<(string, string)>, tail: string, n: nat, key: string)
    requires IsKey(key) && FieldValue(fs, key).Some?
    ensures Lookup(Cut(Segments(head, fs, tail), n), key)
         == if ClosedAt(|head|, fs, key) < n then FieldValue(fs, key) else None
    decreases |fs|
  {
    var end := LineEnd(|fs| == 1);
    var rest := Segments(end, fs[1..], tail);
    CutField(head, fs[0].0, fs[0].1, rest, n);
    var close := |head| + |fs[0].0| + |fs[0].1| + 4;
    if n <= close {
      ShortCut(Cut(Segments(head, fs, tail), n), key);
    } else if fs[0].0 == key {
      HitField(head, fs[0].1, Cut(rest, n - close - 1), key);
    } else {
      var m := n - close - 1;
      SkipField(head, fs[0].0, fs[0].1, Cut(rest, m), key);
      LookupInCut(end, fs[1..], tail, m, key);
    }
  }

  lemma {:induction false} SegmentsQuoteFree(head: string, fs: seq<(string, string)>, tail: string)
    requires QuoteFree(head) && QuoteFree(tail) && AllFieldsQuoteFree(fs)
    ensures AllQuoteFree(Segments(head, fs, tail))
    decreases |fs|
  {
    if fs != [] { SegmentsQuoteFree(LineEnd(|fs| == 1), fs[1..], tail); }
  }

  ghost predicate RecordQuoteFree(r: Record)
  {
    QuoteFree(r.timestamp) && QuoteFree(r.cause.source) && QuoteFree(r.cause.reason)
    && QuoteFree(r.cause.customReason) && QuoteFree(r.cause.otherReason)
  }

  /** Reading one field back from the first n characters of a printed record. */
  lemma FieldRecovered(r: Record, n: nat, key: string)
    requires RecordQuoteFree(r) && IsKey(key) && FieldValue(Fields(r), key).Some?
    ensures RawValue(Take(Text(r), n), Pattern(key))
         == if ClosedAt(2, Fields(r), key) < n then FieldValue(Fields(r), key) else None
  {
    var segs := RecordSegments(r);
    SegmentsQuoteFree("{\n", Fields(r), "}\n");
    TextSegments(r);
    CutIsPrefix(segs, n);
    SplitJoin(Cut(segs, n));
    ExtractIsLookup(Take(Text(r), n), key);
    LookupInCut("{\n", Fields(r), "}\n", n, key);
  }

  // ----- sizes

  function ValueSize(r: Record): nat
  {
    |r.timestamp| + |r.cause.source| + |r.cause.reason| + |r.cause.customReason| + |r.cause.otherReason|
  }

  /** Where each value is closed. */
  lemma ClosingQuotes(r: Record)
    ensures var fs := Fields(r); var c := r.cause;
            && FieldValue(fs, "timestamp") == Some(r.timestamp)
            && FieldValue(fs, "source") == Some(c.source)
            && FieldValue(fs, "reason") == Some(c.reason)
            && FieldValue(fs, "customReason") == Some(c.customReason)
            && FieldValue(fs, "otherReason") == Some(c.otherReason)
            && ClosedAt(2, fs, "timestamp") == 15 + |r.timestamp|
            && ClosedAt(2, fs, "source") == 28 + |r.timestamp| + |c.source|
            && ClosedAt(2, fs, "reason") == 41 + |r.timestamp| + |c.source| + |c.reason|
            && ClosedAt(2, fs, "customReason") == 60 + ValueSize(r) - |c.otherReason|
            && ClosedAt(2, fs, "otherReason") == 78 + ValueSize(r)
  {
    var fs := Fields(r);
    var f1, f2, f3, f4 := fs[1..], fs[2..], fs[3..], fs[4..];
    assert f1[1..] == f2 && f2[1..] == f3 && f3[1..] == f4;
    assert f4[0] == ("otherReason", r.cause.otherReason) && f3[0] == ("customReason", r.cause.customReason);
    assert f2[0] == ("reason", r.cause.reason) && f1[0] == ("source", r.cause.source);
    assert FieldValue(f4, "otherReason") == Some(r.cause.otherReason);
    assert FieldValue(f3, "customReason") == Some(r.cause.customReason);
    assert FieldValue(f2, "reason") == Some(r.cause.reason);
    assert FieldValue(f3, "otherReason") == Some(r.cause.otherReason);
    assert FieldValue(f2, "customReason") == Some(r.cause.customReason);
    assert FieldValue(f2, "otherReason") == Some(r.cause.otherReason);
    assert FieldValue(f1, "reason") == Some(r.cause.reason);
    assert FieldValue(f1, "customReason") == Some(r.cause.customReason);
    assert FieldValue(f1, "otherReason") == Some(r.cause.otherReason);
    var o4 := ClosedAt(2, f4, "otherReason");
    var o3, c3 := ClosedAt(2, f3, "otherReason"), ClosedAt(2, f3, "customReason");
    var o2, c2, r2 := ClosedAt(2, f2, "otherReason"), ClosedAt(2, f2, "customReason"), ClosedAt(2, f2, "reason");
    var o1, c1, r1 := ClosedAt(2, f1, "otherReason"), ClosedAt(2, f1, "customReason"), ClosedAt(2, f1, "reason");
    assert o4 == 17 + |r.cause.otherReason|;
    assert o3 == 19 + |r.cause.customReason| + o4;
    assert o2 == 13 + |r.cause.reason| + o3 && c2 == 13 + |r.cause.reason| + c3;
    assert o1 == 13 + |r.cause.source| + o2 && c1 == 13 + |r.cause.source| + c2 && r1 == 13 + |r.cause.source| + r2;
  }

  lemma {:induction false} LinesPlain(fs: seq<(string, string)>)
    requires forall i :: 0 <= i < |fs| ==> NUL !in fs[i].0 && NUL !in fs[i].1
    ensures NUL !in Lines(fs)
  {
    if fs != [] { LinesPlain(fs[1..]); }
  }
}
