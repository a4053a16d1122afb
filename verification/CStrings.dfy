/** C strings as sequences of characters without the terminating NUL, and the libc
    searches and conversions both programs are built on. */
module CStrings {

  datatype Option<+T> = None | Some(value: T)

  const NUL: char := '\0'

  /** `needle` starts at offset `i` of `text`. */
  ghost predicate OccursAt(text: string, needle: string, i: nat)
  {
    i <= |text| && needle <= text[i..]
  }

  /** `needle` occurs somewhere in `text`. */
  ghost predicate Occurs(text: string, needle: string)
  {
    exists i: nat :: OccursAt(text, needle, i)
  }

  /** strstr: the offset of the first occurrence. */
  function Find(text: string, needle: string): (r: Option<nat>)
    ensures r.Some? ==> OccursAt(text, needle, r.value)
    ensures r.Some? ==> forall i: nat :: OccursAt(text, needle, i) ==> r.value <= i
    ensures r.None? ==> !Occurs(text, needle)
  {
    if needle <= text then
      assert OccursAt(text, needle, 0);
      Some(0)
    else if text == "" then
      None
    else
      var rest := Find(text[1..], needle);
      assert forall i: nat :: OccursAt(text, needle, i) ==> i > 0 && OccursAt(text[1..], needle, i - 1) by {
        forall i: nat | OccursAt(text, needle, i)
          ensures i > 0 && OccursAt(text[1..], needle, i - 1)
        {
          assert text[0..] == text;
          assert text[i..] == text[1..][i - 1..];
        }
      }
      match rest
      case None => None
      case Some(k) =>
        assert text[k + 1..] == text[1..][k..];
        Some(k + 1)
  }

  /** The test `strstr(text, needle) != NULL`. */
  predicate Contains(text: string, needle: string)
    ensures Contains(text, needle) <==> Occurs(text, needle)
  {
    Find(text, needle).Some?
  }

  /** strchr, on the tail of a string: the length of the part before the first `c`. */
  function Until(text: string, c: char): (r: Option<nat>)
    ensures r.Some? ==> r.value < |text| && text[r.value] == c && c !in text[..r.value]
    ensures r.None? ==> c !in text
  {
    if text == "" then None
    else if text[0] == c then Some(0)
    else
      match Until(text[1..], c)
      case None => None
      case Some(k) => Some(k + 1)
  }

  /** The copy of a string into a buffer of `size` bytes: at most size - 1 characters survive. */
  function Clip(s: string, size: nat): (r: string)
    requires size > 0
    ensures r <= s && |r| < size
    ensures |s| < size ==> r == s
    ensures |s| >= size ==> |r| == size - 1
  {
    if |s| < size then s else s[..size - 1]
  }

  /** The C string at the start of a block of bytes: everything before the first NUL. */
  function CStr(bytes: string): (r: string)
    ensures r <= bytes && NUL !in r
    ensures |r| < |bytes| ==> bytes[|r|] == NUL
    ensures NUL !in bytes ==> r == bytes
  {
    if bytes == "" || bytes[0] == NUL then "" else [bytes[0]] + CStr(bytes[1..])
  }

  /** A buffer that holds a C string compares equal to exactly that string. */
  lemma {:induction false} CStrOf(bytes: string, s: string)
    requires |s| < |bytes| && bytes[..|s|] == s && bytes[|s|] == NUL && NUL !in s
    ensures CStr(bytes) == s
  {
    if s != "" {
      assert bytes[..|s|][0] == s[0] == bytes[0];
      assert bytes[1..][..|s| - 1] == bytes[..|s|][1..] == s[1..];
      CStrOf(bytes[1..], s[1..]);
    }
  }

  // ----- facts about occurrences

  lemma OccursInside(before: string, text: string, after: string, needle: string)
    requires Occurs(text, needle)
    ensures Occurs(before + text + after, needle)
  {
    var i: nat :| OccursAt(text, needle, i);
    var whole := before + text + after;
    assert whole[|before| + i..] == text[i..] + after;
    assert OccursAt(whole, needle, |before| + i);
  }

  lemma PrefixOccurs(text: string, part: string, needle: string)
    requires part <= text && Occurs(part, needle)
    ensures Occurs(text, needle)
  {
    assert text == "" + part + text[|part|..];
    OccursInside("", part, text[|part|..], needle);
  }

  lemma OccursTransitive(text: string, middle: string, needle: string)
    requires Occurs(text, middle) && Occurs(middle, needle)
    ensures Occurs(text, needle)
  {
    var i: nat :| OccursAt(text, middle, i);
    assert text == text[..i] + middle + text[i + |middle|..];
    OccursInside(text[..i], middle, text[i + |middle|..], needle);
  }

  lemma OccurrenceHasChar(text: string, needle: string, i: nat, k: nat)
    requires OccursAt(text, needle, i) && k < |needle|
    ensures i + k < |text| && text[i + k] == needle[k]
  {
    assert text[i..][k] == needle[k];
  }

  /** A needle with a character the text lacks does not occur in it. */
  lemma MissingChar(text: string, needle: string, k: nat)
    requires k < |needle| && needle[k] !in text
    ensures !Contains(text, needle)
  {
    if Occurs(text, needle) {
      var i: nat :| OccursAt(text, needle, i);
      OccurrenceHasChar(text, needle, i, k);
    }
  }

  lemma TooLong(text: string, needle: string)
    requires |needle| > |text|
    ensures !Contains(text, needle)
  {
  }

  /** An occurrence in `left + [c] + right` of a needle without `c` lies on one side of `c`. */
  lemma SplitAt(left: string, c: char, right: string, needle: string)
    requires c !in needle
    ensures Occurs(left + [c] + right, needle) <==> Occurs(left, needle) || Occurs(right, needle)
  {
    var text := left + [c] + right;
    if Occurs(left, needle) { OccursInside("", left, [c] + right, needle); assert "" + left + ([c] + right) == text; }
    if Occurs(right, needle) { OccursInside(left + [c], right, "", needle); assert left + [c] + right + "" == text; }
    if Occurs(text, needle) {
      var i: nat :| OccursAt(text, needle, i);
      if i + |needle| <= |left| {
        assert needle <= left[i..] by {
          forall k | 0 <= k < |needle| ensures needle[k] == left[i..][k] { assert text[i..][k] == needle[k]; }
        }
        assert OccursAt(left, needle, i);
      } else if i <= |left| && needle != "" {
        OccurrenceHasChar(text, needle, i, |left| - i);
      } else if i > |left| {
        assert text[i..] == right[i - |left| - 1..];
        assert OccursAt(right, needle, i - |left| - 1);
      }
    }
  }

  // ----- decimal numbers

  predicate IsDigit(c: char) { '0' <= c <= '9' }

  predicate IsSpace(c: char) { c == ' ' || '\t' <= c <= '\r' }

  /** printf's %d of a natural number. */
  function Decimal(n: nat): (r: string)
    ensures r != "" && forall i :: 0 <= i < |r| ==> IsDigit(r[i])
  {
    var digit := [(n % 10) as char + '0'];
    if n < 10 then digit else Decimal(n / 10) + digit
  }

  /** The value of the leading digits, accumulated from the left. */
  function Digits(s: string, acc: nat): (r: nat)
  {
    if s == "" || !IsDigit(s[0]) then acc else Digits(s[1..], acc * 10 + (s[0] - '0') as nat)
  }

  /** atoi: leading white space, an optional sign, digits up to the first other character. */
  function Atoi(s: string): (r: int)
  {
    if s != "" && IsSpace(s[0]) then Atoi(s[1..])
    else if s != "" && s[0] == '-' then 0 - Digits(s[1..], 0)
    else if s != "" && s[0] == '+' then Digits(s[1..], 0)
    else Digits(s, 0)
  }

  lemma {:induction false} DigitsAppend(s: string, d: char, acc: nat)
    requires IsDigit(d) && forall i :: 0 <= i < |s| ==> IsDigit(s[i])
    ensures Digits(s + [d], acc) == Digits(s, acc) * 10 + (d - '0') as nat
  {
    if s == "" {
      assert s + [d] == [d];
      assert Digits([d][1..], acc * 10 + (d - '0') as nat) == acc * 10 + (d - '0') as nat;
    } else {
      assert (s + [d])[1..] == s[1..] + [d];
      DigitsAppend(s[1..], d, acc * 10 + (s[0] - '0') as nat);
    }
  }

  /** Reading back a printed number gives the number. */
  lemma {:induction false} DecimalRoundTrip(n: nat)
    ensures Digits(Decimal(n), 0) == n
    ensures Atoi(Decimal(n)) == n
  {
    var d := (n % 10) as char + '0';
    assert (d - '0') as nat == n % 10;
    if n < 10 {
      assert Decimal(n) == "" + [d];
      DigitsAppend("", d, 0);
    } else {
      DecimalRoundTrip(n / 10);
      DigitsAppend(Decimal(n / 10), d, 0);
    }
    var s := Decimal(n);
    assert IsDigit(s[0]);
  }

  lemma {:induction false} DigitsStop(s: string, rest: string, acc: nat)
    requires (forall i :: 0 <= i < |s| ==> IsDigit(s[i])) && (rest != "" ==> !IsDigit(rest[0]))
    ensures Digits(s + rest, acc) == Digits(s, acc)
  {
    if s == "" {
      assert s + rest == rest;
    } else {
      assert (s + rest)[1..] == s[1..] + rest;
      DigitsStop(s[1..], rest, acc * 10 + (s[0] - '0') as nat);
    }
  }

  /** atoi on a number after white space and an optional sign, whatever follows the digits. */
  lemma {:induction false} AtoiReads(blanks: string, n: nat, rest: string)
    requires (forall i :: 0 <= i < |blanks| ==> IsSpace(blanks[i])) && (rest != "" ==> !IsDigit(rest[0]))
    ensures Atoi(blanks + (Decimal(n) + rest)) == n
    ensures Atoi(blanks + (['+'] + (Decimal(n) + rest))) == n
    ensures Atoi(blanks + (['-'] + (Decimal(n) + rest))) == 0 - n
  {
    hide Decimal;
    var number := Decimal(n) + rest;
    if blanks == "" {
      DecimalRoundTrip(n);
      DigitsStop(Decimal(n), rest, 0);
      assert IsDigit(number[0]);
      assert (['+'] + number)[1..] == number && (['-'] + number)[1..] == number;
      assert blanks + number == number && blanks + (['+'] + number) == ['+'] + number && blanks + (['-'] + number) == ['-'] + number;
    } else {
      assert (blanks + number)[1..] == blanks[1..] + number;
      assert (blanks + (['+'] + number))[1..] == blanks[1..] + (['+'] + number);
      assert (blanks + (['-'] + number))[1..] == blanks[1..] + (['-'] + number);
      AtoiReads(blanks[1..], n, rest);
    }
  }
}
