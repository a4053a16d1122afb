/** Scanning log files line by line through the fgets buffer. */
module LineScan {
  import opened CStrings

  const LINE_BUFFER: nat := 512

  /** The length of what the next fgets takes: through the first newline, at most size - 1. */
  function PieceLength(text: string, size: nat): (n: nat)
    requires text != "" && size > 1
    ensures 0 < n <= |text| && n < size
  {
    var line := match Until(text, '\n') case Some(k) => k + 1 case None => |text|;
    if line < size then line else size - 1
  }

  /** The pieces successive fgets calls deliver. */
  function Pieces(text: string, size: nat): (ps: seq<string>)
    requires size > 1
    ensures forall i :: 0 <= i < |ps| ==> 0 < |ps[i]| < size
  {
    if text == "" then []
    else
      var n := PieceLength(text, size);
      [text[..n]] + Pieces(text[n..], size)
  }

  /** Some piece, read as a C string, contains the text. */
  ghost predicate FoundInPieces(ps: seq<string>, needle: string)
  {
    exists i :: 0 <= i < |ps| && Contains(CStr(ps[i]), needle)
  }

  /** search_string_in_file; a file that cannot be opened is None. */
  method SearchStringInFile(file: Option<string>, needle: string) returns (found: bool)
    ensures found <==> file.Some? && FoundInPieces(Pieces(file.value, LINE_BUFFER), needle)
  {
    found := false;
    if file.None? { return; }
    var rest := file.value;
    ghost var k := 0;
    ghost var ps := Pieces(rest, LINE_BUFFER);
    while rest != ""
      invariant 0 <= k <= |ps| && ps[k..] == Pieces(rest, LINE_BUFFER)
      invariant forall i :: 0 <= i < k ==> !Contains(CStr(ps[i]), needle)
      decreases |rest|
    {
      var n := PieceLength(rest, LINE_BUFFER);
      var line := rest[..n];
      assert ps[k] == ps[k..][0] == line;
      if Contains(CStr(line), needle) {
        found := true;
        break;
      }
      rest := rest[n..];
      assert ps[k + 1..] == ps[k..][1..];
      k := k + 1;
    }
    if !found { assert k == |ps|; }
  }

  // ----- the scan against the whole file

  /** No line, its newline not counted, is longer than the buffer can hold. */
  ghost predicate LinesFit(text: string, size: nat)
  {
    forall i: nat :: NewlineWithin(text, i, size)
  }

  ghost predicate NewlineWithin(text: string, i: nat, size: nat)
  {
    i + size <= |text| ==> '\n' in text[i..i + size]
  }

  /** Cutting off one piece of a text with fitting lines cuts no occurrence of a line-free needle. */
  lemma PieceCutsNothing(text: string, size: nat, needle: string)
    requires text != "" && size > 1 && LinesFit(text, size) && '\n' !in needle && needle != ""
    ensures var n := PieceLength(text, size);
            Occurs(text, needle) <==> Occurs(text[..n], needle) || Occurs(text[n..], needle)
  {
    hide Occurs, LinesFit;
    var n := PieceLength(text, size);
    var newline := Until(text, '\n');
    if newline.Some? && newline.value + 1 < size {
      var left, right := text[..newline.value], text[n..];
      assert text == left + ['\n'] + right;
      SplitAt(left, '\n', right, needle);
      SplitAt(left, '\n', "", needle);
      assert text[..n] == left + ['\n'] + "";
      NotInEmpty(needle);
    } else if n < |text| {
      LongLineEnds(text, size);
      var left, right := text[..n], text[n + 1..];
      assert text == left + ['\n'] + right;
      assert text[n..] == "" + ['\n'] + right;
      SplitAt(left, '\n', right, needle);
      SplitAt("", '\n', right, needle);
      NotInEmpty(needle);
    } else {
      assert text[..n] == text && text[n..] == "";
      NotInEmpty(needle);
    }
  }

  lemma NotInEmpty(needle: string)
    requires needle != ""
    ensures !Occurs("", needle)
  {
  }

  lemma LongLineEnds(text: string, size: nat)
    requires text != "" && size > 1 && LinesFit(text, size) && PieceLength(text, size) < |text|
    requires Until(text, '\n').Some? ==> Until(text, '\n').value + 1 >= size
    ensures PieceLength(text, size) == size - 1 && text[size - 1] == '\n'
  {
    hide Until;
    assert NewlineWithin(text, 0, size);
    var k :| 0 <= k < size && text[0..0 + size][k] == '\n';
    assert text[k] == '\n';
    BeforeFirst(text, k);
  }

  lemma BeforeFirst(text: string, k: nat)
    requires k < |text| && text[k] == '\n'
    ensures Until(text, '\n').Some? && Until(text, '\n').value <= k
  {
    if k > 0 && text[0] != '\n' { BeforeFirst(text[1..], k - 1); }
  }

  lemma LinesFitRest(text: string, n: nat, size: nat)
    requires LinesFit(text, size) && n <= |text|
    ensures LinesFit(text[n..], size)
  {
    var rest := text[n..];
    forall i: nat ensures NewlineWithin(rest, i, size) {
      assert NewlineWithin(text, n + i, size);
      if i + size <= |rest| { assert rest[i..i + size] == text[n + i..n + i + size]; }
    }
  }

  lemma PiecesStep(text: string, size: nat)
    requires text != "" && size > 1
    ensures var n := PieceLength(text, size); Pieces(text, size) == [text[..n]] + Pieces(text[n..], size)
  {
  }

  /** What the scan finds is in the file, whatever its lines and bytes. */
  lemma {:induction false} ScanIsSound(text: string, size: nat, needle: string)
    requires size > 1 && FoundInPieces(Pieces(text, size), needle)
    ensures Occurs(text, needle)
  {
    hide Occurs, Contains, CStr, Pieces, PieceLength;
    NoPieces(size);
    PiecesStep(text, size);
    var n := PieceLength(text, size);
    var piece, rest := text[..n], text[n..];
    var ps, qs := Pieces(text, size), Pieces(rest, size);
    var i :| 0 <= i < |ps| && Contains(CStr(ps[i]), needle);
    if i == 0 {
      assert ps[0] == piece;
      PrefixOccurs(text, CStr(piece), needle);
    } else {
      assert ps[i] == qs[i - 1];
      ScanIsSound(rest, size, needle);
      assert text == piece + rest + "";
      OccursInside(piece, rest, "", needle);
    }
  }

  /** With fitting lines the scan finds a text exactly when it occurs anywhere in the file. */
  lemma {:induction false} ScanIsSearch(text: string, size: nat, needle: string)
    requires size > 1 && NUL !in text && LinesFit(text, size) && '\n' !in needle && needle != ""
    ensures FoundInPieces(Pieces(text, size), needle) <==> Occurs(text, needle)
  {
    hide Occurs, Contains, LinesFit;
    if text == "" {
      NotInEmpty(needle);
    } else {
      var n := PieceLength(text, size);
      var piece, rest := text[..n], text[n..];
      LinesFitRest(text, n, size);
      ScanIsSearch(rest, size, needle);
      PieceCutsNothing(text, size, needle);
      var ps, qs := Pieces(text, size), Pieces(rest, size);
      assert ps == [piece] + qs && CStr(piece) == piece;
      assert ps[0] == piece;
      forall i | 0 <= i < |qs| ensures ps[i + 1] == qs[i] { }
    }
  }

  /** Every piece is too short for a needle of `size` characters. */
  lemma TooLongForPieces(text: string, size: nat, needle: string)
    requires size > 1 && |needle| >= size
    ensures !FoundInPieces(Pieces(text, size), needle)
  {
    hide Contains, Pieces;
    var ps := Pieces(text, size);
    forall i | 0 <= i < |ps| ensures !Contains(CStr(ps[i]), needle) { TooLong(CStr(ps[i]), needle); }
  }

  /** The line scan is the whole-file search for every one-line text. */
  ghost predicate ScansLikeSearch(text: string, size: nat)
    requires size > 1
  {
    forall needle :: needle != "" && '\n' !in needle ==> (FoundInPieces(Pieces(text, size), needle) <==> Occurs(text, needle))
  }

  /** The scan equals the search exactly when all lines fit: the newline-free stretch of a longer
      line occurs in the file and in no piece. */
  lemma SearchExactlyWhenLinesFit(text: string, size: nat)
    requires size > 1 && NUL !in text
    ensures ScansLikeSearch(text, size) <==> LinesFit(text, size)
  {
    hide FoundInPieces, Pieces, Occurs;
    if LinesFit(text, size) {
      forall needle | needle != "" && '\n' !in needle
        ensures FoundInPieces(Pieces(text, size), needle) <==> Occurs(text, needle)
      {
        ScanIsSearch(text, size, needle);
      }
    } else {
      var i: nat :| !NewlineWithin(text, i, size);
      var stretch := text[i..i + size];
      StretchOccurs(text, i, size);
      TooLongForPieces(text, size, stretch);
      assert !(FoundInPieces(Pieces(text, size), stretch) <==> Occurs(text, stretch));
    }
  }

  lemma StretchOccurs(text: string, i: nat, size: nat)
    requires i + size <= |text|
    ensures Occurs(text, text[i..i + size])
  {
    assert text[i..][..size] == text[i..i + size];
    assert OccursAt(text, text[i..i + size], i);
  }

  /** Longer lines hide what straddles the cut: a needle after 510 other characters on one line,
      one instance of the long lines SearchExactlyWhenLinesFit speaks of. */
  lemma StraddledNeedleMissed(needle: string, pad: char)
    requires 2 <= |needle| < LINE_BUFFER && pad !in needle && pad != '\n' && pad != NUL && '\n' !in needle && NUL !in needle
    ensures var text := seq(LINE_BUFFER - 2, _ => pad) + needle;
            Occurs(text, needle) && !FoundInPieces(Pieces(text, LINE_BUFFER), needle)
  {
    hide Pieces, Contains, FoundInPieces;
    var fill := seq(LINE_BUFFER - 2, _ => pad);
    var text := fill + needle;
    assert text[|fill|..] == needle;
    assert OccursAt(text, needle, |fill|);
    CutOnce(fill, needle);
    PadHides(fill, needle, pad);
    TooLong(needle[1..], needle);
    MissedInBoth(fill + [needle[0]], needle[1..], needle);
  }

  lemma MissedInBoth(a: string, b: string, needle: string)
    requires NUL !in a && NUL !in b && !Contains(a, needle) && !Contains(b, needle)
    ensures !FoundInPieces([a, b], needle)
  {
    hide Contains;
    forall i | 0 <= i < 2 ensures !Contains(CStr([a, b][i]), needle) { assert [a, b][i] == a || [a, b][i] == b; }
  }

  lemma NoNewline(text: string)
    requires '\n' !in text
    ensures Until(text, '\n').None?
  {
    hide Until;
  }

  /** A text one character too long for the buffer is cut after its 511th. */
  lemma CutOnce(fill: string, needle: string)
    requires |fill| == LINE_BUFFER - 2 && 2 <= |needle| < LINE_BUFFER && '\n' !in fill && '\n' !in needle
    ensures Pieces(fill + needle, LINE_BUFFER) == [fill + [needle[0]], needle[1..]]
  {
    hide Pieces, Until;
    var text := fill + needle;
    NoNewline(text);
    PiecesStep(text, LINE_BUFFER);
    var first, second := text[..LINE_BUFFER - 1], text[LINE_BUFFER - 1..];
    assert first == fill + [needle[0]] && second == needle[1..];
    NoNewline(second);
    PiecesStep(second, LINE_BUFFER);
    assert second[..|second|] == second && second[|second|..] == "";
    NoPieces(LINE_BUFFER);
  }

  lemma PadHides(fill: string, needle: string, pad: char)
    requires |needle| >= 2 && pad !in needle && forall i :: 0 <= i < |fill| ==> fill[i] == pad
    ensures !Contains(fill + [needle[0]], needle)
  {
    var text := fill + [needle[0]];
    forall i: nat ensures !OccursAt(text, needle, i) {
      if OccursAt(text, needle, i) { OccurrenceHasChar(text, needle, i, 0); OccurrenceHasChar(text, needle, i, 1); }
    }
  }

  // ----- the panic scan

  const PANIC_SIGNATURES: seq<string> := [
    "Kernel panic - not syncing", "Kernel Panic", "Kernel Oops", "Oops - undefined instruction",
    "Oops - bad syscall", "branch through zero", "unknown data abort code", "Illegal memory access"
  ]

  /** The panic type and the line that showed it. */
  datatype Panic = Panic(panicType: string, details: string)

  ghost predicate Quiet(line: string)
  {
    forall i :: 0 <= i < |PANIC_SIGNATURES| ==> !Contains(CStr(line), PANIC_SIGNATURES[i])
  }

  /** Signature i in piece k is the first one: no earlier piece has any, piece k has none with a lower index. */
  ghost predicate FirstPanic(ps: seq<string>, k: int, i: int)
  {
    && 0 <= k < |ps| && 0 <= i < |PANIC_SIGNATURES|
    && Contains(CStr(ps[k]), PANIC_SIGNATURES[i])
    && (forall j :: 0 <= j < k ==> Quiet(ps[j]))
    && (forall j :: 0 <= j < i ==> !Contains(CStr(ps[k]), PANIC_SIGNATURES[j]))
  }

  function BeforeNewline(s: string): string { match Until(s, '\n') case Some(k) => s[..k] case None => s }

  ghost predicate Reports(ps: seq<string>, p: Panic)
  {
    exists k, i :: FirstPanic(ps, k, i)
                   && p == Panic(Clip(PANIC_SIGNATURES[i], 128), BeforeNewline(Clip(CStr(ps[k]), LINE_BUFFER)))
  }

  /** The inner loop over the table: the lowest matching index, or the table's length. */
  method LowestSignature(line: string) returns (i: nat)
    ensures i <= |PANIC_SIGNATURES|
    ensures i < |PANIC_SIGNATURES| ==> Contains(line, PANIC_SIGNATURES[i])
    ensures forall j :: 0 <= j < i ==> !Contains(line, PANIC_SIGNATURES[j])
  {
    i := 0;
    while i < |PANIC_SIGNATURES|
      invariant i <= |PANIC_SIGNATURES| && forall j :: 0 <= j < i ==> !Contains(line, PANIC_SIGNATURES[j])
    {
      if Contains(line, PANIC_SIGNATURES[i]) { return; }
      i := i + 1;
    }
  }

  /** search_panic_in_file. */
  method SearchPanicInFile(file: Option<string>) returns (panic: Option<Panic>)
    ensures file.None? ==> panic.None?
    ensures file.Some? && panic.Some? ==> Reports(Pieces(file.value, LINE_BUFFER), panic.value)
    ensures file.Some? && panic.None? ==>
              forall k :: 0 <= k < |Pieces(file.value, LINE_BUFFER)| ==> Quiet(Pieces(file.value, LINE_BUFFER)[k])
  {
    if file.None? { return None; }
    hide Contains, CStr, PieceLength, Pieces;
    var rest := file.value;
    ghost var k := 0;
    ghost var ps := Pieces(rest, LINE_BUFFER);
    while rest != ""
      invariant 0 <= k <= |ps| && ps[k..] == Pieces(rest, LINE_BUFFER)
      invariant forall j :: 0 <= j < k ==> Quiet(ps[j])
      decreases |rest|
    {
      PiecesStep(rest, LINE_BUFFER);
      var n := PieceLength(rest, LINE_BUFFER);
      var line := CStr(rest[..n]);
      assert ps[k] == ps[k..][0] == rest[..n];
      var i := LowestSignature(line);
      if i < |PANIC_SIGNATURES| {
        var details := Clip(line, LINE_BUFFER);
        var newline := Until(details, '\n');
        if newline.Some? { details := details[..newline.value]; }
        assert FirstPanic(ps, k, i);
        return Some(Panic(Clip(PANIC_SIGNATURES[i], 128), details));
      }
      rest := rest[n..];
      assert ps[k + 1..] == ps[k..][1..];
      k := k + 1;
    }
    NoPieces(LINE_BUFFER);
    return None;
  }

  // ----- what a report says about the file

  /** A newline ends its piece. */
  lemma NewlineEndsPiece(text: string, size: nat)
    requires text != "" && size > 1
    ensures var n := PieceLength(text, size); '\n' !in text[..n - 1]
  {
    var n := PieceLength(text, size);
    var newline := Until(text, '\n');
    hide Until;
    if newline.Some? {
      assert text[..n - 1] <= text[..newline.value];
      assert forall c :: c in text[..n - 1] ==> c in text[..newline.value];
    } else {
      assert forall c :: c in text[..n - 1] ==> c in text;
    }
  }

  /** The details are the line of the piece without its newline, and still show the signature. */
  lemma DetailsShow(line: string, signature: string)
    requires NUL !in line && (line != "" ==> '\n' !in line[..|line| - 1]) && '\n' !in signature && signature != ""
    ensures var details := BeforeNewline(line);
            '\n' !in details && (line == details || line == details + ['\n'])
            && (Occurs(line, signature) <==> Occurs(details, signature))
  {
    var details := BeforeNewline(line);
    if Until(line, '\n').Some? {
      var k := Until(line, '\n').value;
      assert line == details + ['\n'] + "";
      SplitAt(details, '\n', "", signature);
      NotInEmpty(signature);
    }
  }

  /** Text in front of a stretch that starts a line. */
  lemma FrontShowsNothing(piece: string, more: string, signature: string)
    requires !Occurs(piece, signature) && !Occurs(more, signature) && '\n' !in signature && signature != ""
    requires more == "" || more[0] == '\n' || (piece != "" && piece[|piece| - 1] == '\n')
    ensures !Occurs(piece + more, signature)
  {
    hide Occurs;
    NotInEmpty(signature);
    if more == "" {
      assert piece + more == piece;
    } else if more[0] == '\n' {
      assert piece + more == piece + ['\n'] + more[1..];
      assert more == "" + ['\n'] + more[1..];
      SplitAt(piece, '\n', more[1..], signature);
      SplitAt("", '\n', more[1..], signature);
    } else {
      var line := piece[..|piece| - 1];
      assert piece == line + ['\n'] + "";
      assert piece + more == line + ['\n'] + more;
      SplitAt(line, '\n', "", signature);
      SplitAt(line, '\n', more, signature);
    }
  }

  /** Nothing of the table occurs in the text. */
  ghost predicate Calm(text: string)
  {
    forall i :: 0 <= i < |PANIC_SIGNATURES| ==> !Occurs(text, PANIC_SIGNATURES[i])
  }

  function Glue(ps: seq<string>): string { if ps == [] then "" else ps[0] + Glue(ps[1..]) }

  lemma {:induction false} GlueParts(ps: seq<string>, k: nat)
    requires k < |ps|
    ensures Glue(ps) == Glue(ps[..k]) + ps[k] + Glue(ps[k + 1..])
  {
    if k == 0 {
      assert ps[..0] == [];
    } else {
      GlueParts(ps[1..], k - 1);
      assert ps[1..][..k - 1] == ps[..k][1..] && ps[1..][k..] == ps[k + 1..];
    }
  }

  lemma {:induction false} GluedPieces(text: string, size: nat)
    requires size > 1
    ensures Glue(Pieces(text, size)) == text
  {
    hide Pieces, PieceLength;
    NoPieces(size);
    if text != "" {
      PiecesStep(text, size);
      var n := PieceLength(text, size);
      GluedPieces(text[n..], size);
      assert Pieces(text, size)[1..] == Pieces(text[n..], size);
    }
  }

  lemma NextStartsLine(text: string, size: nat)
    requires text != "" && size > 1 && LinesFit(text, size) && PieceLength(text, size) < |text|
    ensures var n := PieceLength(text, size); text[n - 1] == '\n' || text[n] == '\n'
  {
    var newline := Until(text, '\n');
    if newline.None? || newline.value + 1 >= size { LongLineEnds(text, size); }
  }

  /** What stands in front of the first panicking piece shows no signature, not even across pieces. */
  lemma {:induction false} CalmFront(text: string, k: nat)
    requires NUL !in text && LinesFit(text, LINE_BUFFER) && k <= |Pieces(text, LINE_BUFFER)|
    requires forall j :: 0 <= j < k ==> Quiet(Pieces(text, LINE_BUFFER)[j])
    ensures Glue(Pieces(text, LINE_BUFFER)[..k]) <= text && Calm(Glue(Pieces(text, LINE_BUFFER)[..k]))
    decreases |text|
  {
    hide Contains, Occurs, LinesFit, Pieces, PieceLength, Quiet, Calm;
    var ps := Pieces(text, LINE_BUFFER);
    NoPieces(LINE_BUFFER);
    if k == 0 {
      assert ps[..0] == [];
      EmptyIsCalm();
    } else {
      PiecesStep(text, LINE_BUFFER);
      var n := PieceLength(text, LINE_BUFFER);
      var piece, rest := text[..n], text[n..];
      var qs := Pieces(rest, LINE_BUFFER);
      LinesFitRest(text, n, LINE_BUFFER);
      assert ps == [piece] + qs;
      forall j | 0 <= j < k - 1 ensures Quiet(qs[j]) { assert qs[j] == ps[j + 1]; }
      CalmFront(rest, k - 1);
      assert ps[..k] == [piece] + qs[..k - 1] && ps[..k][1..] == qs[..k - 1];
      var more := Glue(qs[..k - 1]);
      if more != "" { NextStartsLine(text, LINE_BUFFER); }
      assert ps[0] == piece;
      CalmTogether(piece, more);
      assert text == piece + rest;
    }
  }

  lemma EmptyIsCalm()
    ensures Calm("")
  {
    hide Occurs;
    SignaturesAreLineFree();
    forall j | 0 <= j < |PANIC_SIGNATURES| ensures !Occurs("", PANIC_SIGNATURES[j]) { NotInEmpty(PANIC_SIGNATURES[j]); }
  }

  lemma CalmTogether(piece: string, more: string)
    requires NUL !in piece && Quiet(piece) && Calm(more)
    requires more == "" || more[0] == '\n' || (piece != "" && piece[|piece| - 1] == '\n')
    ensures Calm(piece + more)
  {
    hide Occurs;
    SignaturesAreLineFree();
    forall j | 0 <= j < |PANIC_SIGNATURES| ensures !Occurs(piece + more, PANIC_SIGNATURES[j]) {
      assert CStr(piece) == piece;
      FrontShowsNothing(piece, more, PANIC_SIGNATURES[j]);
    }
  }

  /** A report names the first line of the file that shows a signature, without its newline, and of
      the signatures in that line the one that comes first in the table. */
  lemma ReportIsFirst(text: string, p: Panic) returns (before: string, after: string, i: int)
    requires NUL !in text && LinesFit(text, LINE_BUFFER) && Reports(Pieces(text, LINE_BUFFER), p)
    ensures text == before + p.details + after && Calm(before) && '\n' !in p.details
    ensures 0 <= i < |PANIC_SIGNATURES| && p.panicType == PANIC_SIGNATURES[i] && Occurs(p.details, p.panicType)
    ensures forall j :: 0 <= j < i ==> !Occurs(p.details, PANIC_SIGNATURES[j])
  {
    hide Contains, Occurs, LinesFit, Pieces, PANIC_SIGNATURES, CStr, BeforeNewline, Calm, Glue;
    var ps := Pieces(text, LINE_BUFFER);
    var k;
    k, i :| FirstPanic(ps, k, i) && p == Panic(Clip(PANIC_SIGNATURES[i], 128), BeforeNewline(Clip(CStr(ps[k]), LINE_BUFFER)));
    CalmFront(text, k);
    GluedPieces(text, LINE_BUFFER);
    GlueParts(ps, k);
    before, after := Glue(ps[..k]), Glue(ps[k + 1..]);
    PieceIsLine(text, k);
    LineReported(ps[k], i);
    if ps[k] != p.details { after := ['\n'] + after; }
  }

  lemma LineReported(line: string, i: int)
    requires NUL !in line && |line| < LINE_BUFFER && (line != "" ==> '\n' !in line[..|line| - 1])
    requires 0 <= i < |PANIC_SIGNATURES| && Contains(CStr(line), PANIC_SIGNATURES[i])
    requires forall j :: 0 <= j < i ==> !Contains(CStr(line), PANIC_SIGNATURES[j])
    ensures var details := BeforeNewline(Clip(CStr(line), LINE_BUFFER));
            && (line == details || line == details + ['\n']) && '\n' !in details && Clip(PANIC_SIGNATURES[i], 128) == PANIC_SIGNATURES[i]
            && Occurs(details, PANIC_SIGNATURES[i]) && forall j :: 0 <= j < i ==> !Occurs(details, PANIC_SIGNATURES[j])
  {
    SignaturesAreLineFree();
    SignaturesAreShort();
    hide Occurs, BeforeNewline, Find, CStr, PANIC_SIGNATURES;
    assert CStr(line) == line;
    forall j | 0 <= j <= i ensures Occurs(line, PANIC_SIGNATURES[j]) <==> Occurs(BeforeNewline(line), PANIC_SIGNATURES[j]) {
      DetailsShow(line, PANIC_SIGNATURES[j]);
    }
    DetailsShow(line, PANIC_SIGNATURES[i]);
  }

  lemma SignaturesAreShort()
    ensures forall i :: 0 <= i < |PANIC_SIGNATURES| ==> |PANIC_SIGNATURES[i]| < 128
  {
  }

  lemma {:induction false} PieceIsLine(text: string, k: int)
    requires NUL !in text && 0 <= k < |Pieces(text, LINE_BUFFER)|
    ensures var line := Pieces(text, LINE_BUFFER)[k];
            NUL !in line && line != "" && |line| < LINE_BUFFER && '\n' !in line[..|line| - 1]
    decreases |text|
  {
    hide Pieces, PieceLength;
    NoPieces(LINE_BUFFER);
    PiecesStep(text, LINE_BUFFER);
    NewlineEndsPiece(text, LINE_BUFFER);
    var n := PieceLength(text, LINE_BUFFER);
    if k > 0 {
      assert Pieces(text, LINE_BUFFER)[k] == Pieces(text[n..], LINE_BUFFER)[k - 1];
      PieceIsLine(text[n..], k - 1);
    }
  }

  lemma NoPieces(size: nat)
    requires size > 1
    ensures Pieces("", size) == []
  {
  }

  /** No piece contains any of the texts. */
  ghost predicate NoneOfThem(ps: seq<string>, texts: seq<string>)
  {
    forall i :: 0 <= i < |texts| ==> !FoundInPieces(ps, texts[i])
  }

  lemma QuietMeansNone(ps: seq<string>)
    ensures (forall k :: 0 <= k < |ps| ==> Quiet(ps[k])) <==> NoneOfThem(ps, PANIC_SIGNATURES)
  {
    hide Contains, CStr;
  }

  /** With fitting lines scanning for several texts is searching the file for each of them. */
  lemma NoneIsSearch(text: string, texts: seq<string>)
    requires NUL !in text && LinesFit(text, LINE_BUFFER)
    requires forall i :: 0 <= i < |texts| ==> texts[i] != "" && '\n' !in texts[i]
    ensures NoneOfThem(Pieces(text, LINE_BUFFER), texts) <==> forall i :: 0 <= i < |texts| ==> !Occurs(text, texts[i])
  {
    hide Pieces, Occurs, LinesFit, FoundInPieces;
    forall i | 0 <= i < |texts| ensures FoundInPieces(Pieces(text, LINE_BUFFER), texts[i]) <==> Occurs(text, texts[i]) {
      ScanIsSearch(text, LINE_BUFFER, texts[i]);
    }
  }

  /** With fitting lines a panic is reported exactly when some signature occurs in the file. */
  lemma PanicIsSearch(text: string)
    requires NUL !in text && LinesFit(text, LINE_BUFFER)
    ensures (forall k :: 0 <= k < |Pieces(text, LINE_BUFFER)| ==> Quiet(Pieces(text, LINE_BUFFER)[k])) <==>
            forall i :: 0 <= i < |PANIC_SIGNATURES| ==> !Occurs(text, PANIC_SIGNATURES[i])
  {
    hide Pieces, Occurs, LinesFit, Quiet, NoneOfThem;
    SignaturesAreLineFree();
    NoneIsSearch(text, PANIC_SIGNATURES);
    QuietMeansNone(Pieces(text, LINE_BUFFER));
  }

  lemma SignaturesAreLineFree()
    ensures forall i :: 0 <= i < |PANIC_SIGNATURES| ==> PANIC_SIGNATURES[i] != "" && '\n' !in PANIC_SIGNATURES[i]
  {
  }
}
