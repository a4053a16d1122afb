/** Formatted text appended to a buffer of fixed size, piece by piece. */
module BoundedAppend {
  import opened CStrings

  /** What a buffer of `size` bytes holds after one more text was appended to what it held. */
  function Appended(held: string, size: nat, text: string): (r: string)
    requires |held| < size
    ensures |r| < size
  {
    held + Clip(text, size - |held|)
  }

  function AppendedAll(held: string, size: nat, texts: seq<string>): (r: string)
    requires |held| < size
    ensures |r| < size
    decreases |texts|
  {
    if texts == [] then held else AppendedAll(Appended(held, size, texts[0]), size, texts[1..])
  }

  function Concat(texts: seq<string>): string { if texts == [] then "" else texts[0] + Concat(texts[1..]) }

  /** Appending to a clipped beginning and clipping the whole are the same. */
  lemma ClipAppend(total: string, size: nat, text: string)
    requires size > 0
    ensures Appended(Clip(total, size), size, text) == Clip(total + text, size)
  {
  }

  /** After any sequence of appends the buffer holds what fits of the full concatenation. */
  lemma {:induction false} AppendsRefineConcat(total: string, size: nat, texts: seq<string>)
    requires size > 0
    ensures AppendedAll(Clip(total, size), size, texts) == Clip(total + Concat(texts), size)
    decreases |texts|
  {
    hide Appended, Clip;
    if texts == [] {
      assert total + Concat(texts) == total;
    } else {
      ClipAppend(total, size, texts[0]);
      AppendsRefineConcat(total + texts[0], size, texts[1..]);
      assert total + texts[0] + Concat(texts[1..]) == total + Concat(texts);
    }
  }

  /** The bytes vsnprintf writes, terminated. */
  method WriteAt(buffer: array<char>, used: nat, written: string)
    requires used + |written| < buffer.Length
    modifies buffer
    ensures buffer[..used + |written|] == old(buffer[..used]) + written && buffer[used + |written|] == NUL
  {
    for k := 0 to |written|
      invariant buffer[..used + k] == old(buffer[..used]) + written[..k]
    {
      buffer[used + k] := written[k];
    }
    buffer[used + |written|] := NUL;
  }

  /** update_reboot_log: vsnprintf of a text at offset `used`; a formatting error is None. */
  method UpdateRebootLog(buffer: array<char>, used: nat, text: Option<string>) returns (n: nat)
    modifies buffer
    ensures buffer.Length == 0 ==> n == 0
    ensures buffer.Length > 0 && text.Some? && used < buffer.Length ==>
              && n < buffer.Length && buffer[n] == NUL
              && buffer[..n] == Appended(old(buffer[..used]), buffer.Length, text.value)
    ensures buffer.Length > 0 && used >= buffer.Length ==> n == buffer.Length - 1 && buffer[n] == NUL
    ensures buffer.Length > 0 && text.None? && used < buffer.Length ==>
              n == used && buffer[..n] == old(buffer[..n]) && buffer[buffer.Length - 1] == NUL
  {
    if buffer.Length == 0 { return 0; }
    hide Clip;
    if used >= buffer.Length - 1 {
      buffer[buffer.Length - 1] := NUL;
      return buffer.Length - 1;
    }
    var left := buffer.Length - used;
    if text.None? {
      buffer[buffer.Length - 1] := NUL;
      return used;
    }
    WriteAt(buffer, used, Clip(text.value, left));
    if |text.value| >= left { return buffer.Length - 1; }
    return used + |text.value|;
  }

  /** Any sequence of appends from offset 0 leaves what fits of the full concatenation; without any
      append the buffer is not touched. */
  method AppendAll(buffer: array<char>, texts: seq<string>) returns (n: nat)
    requires buffer.Length > 0
    modifies buffer
    ensures texts == [] ==> buffer[..] == old(buffer[..])
    ensures n < buffer.Length && (texts != [] ==> buffer[n] == NUL)
    ensures buffer[..n] == Clip(Concat(texts), buffer.Length)
    ensures n == if |Concat(texts)| < buffer.Length then |Concat(texts)| else buffer.Length - 1
  {
    hide Clip, Appended, Concat, AppendedAll;
    n := 0;
    AppendsRefineConcat("", buffer.Length, texts);
    assert "" + Concat(texts) == Concat(texts);
    assert texts[0..] == texts;
    for k := 0 to |texts|
      invariant n < buffer.Length && (k > 0 ==> buffer[n] == NUL) && (k == 0 ==> n == 0 && buffer[..] == old(buffer[..]))
      invariant AppendedAll(buffer[..n], buffer.Length, texts[k..]) == Clip(Concat(texts), buffer.Length)
    {
      AppendsStep(buffer[..n], buffer.Length, texts, k);
      n := UpdateRebootLog(buffer, n, Some(texts[k]));
    }
    assert texts[|texts|..] == [];
    NothingToAppend(buffer[..n], buffer.Length);
  }

  lemma AppendsStep(held: string, size: nat, texts: seq<string>, k: nat)
    requires |held| < size && k < |texts|
    ensures AppendedAll(held, size, texts[k..]) == AppendedAll(Appended(held, size, texts[k]), size, texts[k + 1..])
  {
    hide Appended;
    assert texts[k..][0] == texts[k] && texts[k..][1..] == texts[k + 1..];
  }

  lemma NothingToAppend(held: string, size: nat)
    requires |held| < size
    ensures AppendedAll(held, size, []) == held
  {
  }

  /** The texts main appends for the reason line of the reboot log. */
  function ReasonTexts(source: string, isCrash: bool, other: string): seq<string>
  {
    ["RebootReason: ",
     "Triggered from " + source + (if isCrash then " process failure or crash..!" else " process"),
     if other == "Unknown" then "\n" else " " + other + "\n"]
  }

  /** The three appends of main: the buffer ends up with what fits of the whole reason line. */
  method FormatReasonLine(buffer: array<char>, source: string, isCrash: bool, other: string) returns (n: nat)
    requires buffer.Length > 0
    modifies buffer
    ensures n < buffer.Length && buffer[n] == NUL
    ensures buffer[..n] == Clip(Concat(ReasonTexts(source, isCrash, other)), buffer.Length)
  {
    hide Clip, Appended, Concat;
    ghost var texts := ReasonTexts(source, isCrash, other);
    n := 0;
    n := UpdateRebootLog(buffer, n, Some("RebootReason: "));
    n := UpdateRebootLog(buffer, n,
      Some("Triggered from " + source + (if isCrash then " process failure or crash..!" else " process")));
    if other == "Unknown" {
      n := UpdateRebootLog(buffer, n, Some("\n"));
    } else {
      n := UpdateRebootLog(buffer, n, Some(" " + other + "\n"));
    }
    buffer[buffer.Length - 1] := NUL;
    ThreeAppends(buffer.Length, texts[0], texts[1], texts[2]);
    assert texts == [texts[0], texts[1], texts[2]];
  }

  lemma ThreeAppends(size: nat, a: string, b: string, c: string)
    requires size > 0
    ensures Appended(Appended(Appended("", size, a), size, b), size, c) == Clip(Concat([a, b, c]), size)
  {
    hide Clip, Appended;
    var texts := [a, b, c];
    assert texts[1..] == [b, c] && texts[1..][1..] == [c] && texts[1..][1..][1..] == [];
    var first := Appended("", size, a);
    var second := Appended(first, size, b);
    assert AppendedAll(second, size, [c]) == Appended(second, size, c);
    assert AppendedAll(first, size, [b, c]) == AppendedAll(second, size, [c]);
    assert AppendedAll("", size, texts) == AppendedAll(first, size, [b, c]);
    AppendsRefineConcat("", size, texts);
    assert "" + Concat(texts) == Concat(texts);
  }
}
