/**
 * The JSON text of an embedding list, standing in for `json.dumps` and
 * `json.loads`. Each number is written exactly, as `<mantissa>e<exponent>`
 * (a valid JSON number), and the list as `[x1,x2,...]` with no space after
 * the commas (Python writes `", "`). The decoder reads every text the
 * writer produces back to the same list; it also reads some texts Python
 * rejects (a leading zero such as `01e0`) and rejects much that Python reads
 * (whitespace, fractions), reporting those as a decoding error.
 */
module Json {
  import opened Common
  import opened Strings
  import opened FaceEngine

  /** The message carried by json.loads' decoding error (its exact wording is not modelled). */
  const DecodeErrorMessage := "Expecting value"

  function IntText(i: int): (s: string)
    ensures |s| > 0 && (s[0] == '-' || IsDigit(s[0]))
  {
    if i < 0 then "-" + NatToText(-i) else NatToText(i)
  }

  function NumText(x: Num): (s: string)
    ensures |s| > 0 && (s[0] == '-' || IsDigit(s[0]))
  {
    IntText(x.mantissa) + "e" + IntText(x.exponent)
  }

  /** The comma-separated items of a list. */
  function ItemsText(l: seq<Num>): string
  {
    if |l| == 0 then ""
    else if |l| == 1 then NumText(l[0])
    else NumText(l[0]) + "," + ItemsText(l[1..])
  }

  /** `json.dumps(embedding_list)`. */
  function Dumps(l: Embedding): (s: string)
    ensures |s| >= 2 && s[0] == '[' && s[|s| - 1] == ']'
  {
    "[" + ItemsText(l) + "]"
  }

  /** The length of the longest prefix of `s` made of digits. */
  function DigitRun(s: string): (k: nat)
    ensures k <= |s| && AllDigits(s[..k])
    ensures k < |s| ==> !IsDigit(s[k])
  {
    if |s| > 0 && IsDigit(s[0]) then
      var k := 1 + DigitRun(s[1..]);
      assert s[..k] == [s[0]] + s[1..][..k - 1];
      k
    else 0
  }

  /** Reads a natural number at the front of `s`; returns it and what follows. */
  function ParseNat(s: string): (r: Option<(nat, string)>)
    ensures r.Some? ==> |r.value.1| < |s|
  {
    var k := DigitRun(s);
    if k == 0 then None else Some((TextToNat(s[..k]), s[k..]))
  }

  /** Reads an optionally negative integer at the front of `s`. */
  function ParseInt(s: string): (r: Option<(int, string)>)
    ensures r.Some? ==> |r.value.1| < |s|
  {
    var negative := |s| > 0 && s[0] == '-';
    match ParseNat(if negative then s[1..] else s)
    case None => None
    case Some((n, rest)) => Some((if negative then -(n as int) else n as int, rest))
  }

  function ParseNum(s: string): (r: Option<(Num, string)>)
    ensures r.Some? ==> |r.value.1| < |s|
  {
    match ParseInt(s)
    case None => None
    case Some((m, rest)) =>
      if |rest| > 0 && rest[0] == 'e' then
        match ParseInt(rest[1..])
        case None => None
        case Some((e, rest')) => Some((Num(m, e), rest'))
      else None
  }

  /** Reads the items of a non-empty list and its closing bracket. */
  function ParseItems(s: string): (r: Option<(seq<Num>, string)>)
    decreases |s|
  {
    match ParseNum(s)
    case None => None
    case Some((x, rest)) =>
      if |rest| > 0 && rest[0] == ',' then
        match ParseItems(rest[1..])
        case None => None
        case Some((xs, rest')) => Some(([x] + xs, rest'))
      else if |rest| > 0 && rest[0] == ']' then Some(([x], rest[1..]))
      else None
  }

  /** `json.loads(text)` for a list of numbers; None is the decoding error. Only a bracketed text decodes. */
  function Loads(s: string): (r: Option<Embedding>)
    ensures r.Some? ==> |s| >= 2 && s[0] == '['
  {
    if |s| >= 2 && s[0] == '[' && s[1] == ']' then
      if |s| == 2 then Some([]) else None
    else if |s| >= 1 && s[0] == '[' then
      match ParseItems(s[1..])
      case None => None
      case Some((xs, rest)) => if rest == "" then Some(xs) else None
    else None
  }

  lemma {:induction false} DigitRunOfDigits(d: string, rest: string)
    requires AllDigits(d)
    requires rest == [] || !IsDigit(rest[0])
    ensures DigitRun(d + rest) == |d|
    decreases |d|
  {
    if |d| > 0 {
      assert (d + rest)[1..] == d[1..] + rest;
      DigitRunOfDigits(d[1..], rest);
    }
  }

  lemma ParseNatText(s: string, n: nat, rest: string)
    requires s == NatToText(n) + rest
    requires rest == [] || !IsDigit(rest[0])
    ensures ParseNat(s) == Some((n, rest))
  {
    var d := NatToText(n);
    DigitRunOfDigits(d, rest);
    assert s[..|d|] == d;
    assert s[|d|..] == rest;
    NatTextRoundTrip(n);
  }

  lemma ParseIntText(s: string, i: int, rest: string)
    requires s == IntText(i) + rest
    requires rest == [] || !IsDigit(rest[0])
    ensures ParseInt(s) == Some((i, rest))
  {
    if i < 0 {
      ParseNegativeText(s, i, rest);
    } else {
      assert s[0] == NatToText(i)[0];
      ParseNatText(s, i, rest);
    }
  }

  lemma ParseNegativeText(s: string, i: int, rest: string)
    requires i < 0 && s == IntText(i) + rest
    requires rest == [] || !IsDigit(rest[0])
    ensures ParseInt(s) == Some((i, rest))
  {
    DropFirst('-', NatToText(-i), rest);
    ParseNatText(s[1..], -i, rest);
  }

  lemma ParseNumText(s: string, x: Num, rest: string)
    requires s == NumText(x) + rest
    requires rest == [] || !IsDigit(rest[0])
    ensures ParseNum(s) == Some((x, rest))
  {
    var tail := IntText(x.exponent) + rest;
    Regroup3(IntText(x.mantissa), 'e', IntText(x.exponent), rest);
    ParseIntText(s, x.mantissa, "e" + tail);
    ParseIntText(tail, x.exponent, rest);
  }

  /** One step of the list reader: an item followed by a comma. */
  lemma ParseItemsComma(s: string, x: Num, tail: string, xs: seq<Num>, rest: string)
    requires ParseNum(s) == Some((x, "," + tail))
    requires ParseItems(tail) == Some((xs, rest))
    ensures ParseItems(s) == Some(([x] + xs, rest))
  {
    assert ("," + tail)[1..] == tail;
  }

  /** One step of the list reader: the last item and the closing bracket. */
  lemma ParseItemsClose(s: string, x: Num, tail: string)
    requires ParseNum(s) == Some((x, "]" + tail))
    ensures ParseItems(s) == Some(([x], tail))
  {
    assert ("]" + tail)[1..] == tail;
  }

  /** The reader takes the first item of a list of two or more items and stops at the comma. */
  lemma ParseFirstItem(s: string, l: seq<Num>, rest: string)
    requires |l| > 1 && s == ItemsText(l) + "]" + rest
    ensures ParseNum(s) == Some((l[0], "," + (ItemsText(l[1..]) + "]" + rest)))
  {
    var tail := ItemsText(l[1..]) + "]" + rest;
    assert ItemsText(l) == NumText(l[0]) + "," + ItemsText(l[1..]);
    Regroup(NumText(l[0]), ',', ItemsText(l[1..]), rest);
    ParseNumText(s, l[0], "," + tail);
  }

  /** A non-empty sequence is its first element followed by the rest. */
  lemma SplitFirst<T>(l: seq<T>)
    requires |l| > 0
    ensures l == [l[0]] + l[1..]
  {
  }

  /** A one-element sequence is that element alone. */
  lemma SplitOnly<T>(l: seq<T>)
    requires |l| == 1
    ensures l == [l[0]]
  {
  }

  /** Removing the leading character of a concatenation. */
  lemma DropFirst(c: char, a: string, rest: string)
    ensures ([c] + a + rest)[0] == c && ([c] + a + rest)[1..] == a + rest
  {
  }

  /** Regrouping a concatenation around a separator character. */
  lemma Regroup3(a: string, sep: char, b: string, rest: string)
    ensures a + [sep] + b + rest == a + ([sep] + (b + rest))
  {
  }

  /** Regrouping a concatenation around a separator character, before a closing bracket. */
  lemma Regroup(a: string, sep: char, b: string, rest: string)
    ensures a + [sep] + b + "]" + rest == a + ([sep] + (b + "]" + rest))
  {
  }

  /** The reader takes the only item of a one-item list and its closing bracket. */
  lemma ParseOnlyItem(s: string, l: seq<Num>, rest: string)
    requires |l| == 1 && s == ItemsText(l) + "]" + rest
    ensures ParseItems(s) == Some((l, rest))
  {
    assert s == NumText(l[0]) + ("]" + rest);
    ParseNumText(s, l[0], "]" + rest);
    ParseItemsClose(s, l[0], rest);
    SplitOnly(l);
  }

  /** The reader takes a list of two or more items once it takes the list without its first item. */
  lemma ParseItemsStep(s: string, l: seq<Num>, rest: string)
    requires |l| > 1 && s == ItemsText(l) + "]" + rest
    requires ParseItems(ItemsText(l[1..]) + "]" + rest) == Some((l[1..], rest))
    ensures ParseItems(s) == Some((l, rest))
  {
    var tail := ItemsText(l[1..]) + "]" + rest;
    ParseFirstItem(s, l, rest);
    ParseItemsComma(s, l[0], tail, l[1..], rest);
    SplitFirst(l);
  }

  lemma {:induction false} ParseItemsText(s: string, l: seq<Num>, rest: string)
    requires |l| > 0
    requires s == ItemsText(l) + "]" + rest
    ensures ParseItems(s) == Some((l, rest))
    decreases |l|
  {
    if |l| == 1 {
      ParseOnlyItem(s, l, rest);
    } else {
      ParseItemsText(ItemsText(l[1..]) + "]" + rest, l[1..], rest);
      ParseItemsStep(s, l, rest);
    }
  }

  /** A non-empty list's text starts with the text of its first item. */
  lemma ItemsTextStart(l: seq<Num>)
    requires |l| > 0
    ensures |ItemsText(l)| > 0 && ItemsText(l)[0] == NumText(l[0])[0]
  {
  }

  /** What follows the opening bracket of a list's text. */
  lemma DumpsBody(l: Embedding)
    ensures Dumps(l)[1..] == ItemsText(l) + "]" + ""
  {
    var s := Dumps(l);
    assert s == "[" + (ItemsText(l) + "]");
  }

  /** Decoding the text of an embedding list gives back the list. */
  lemma LoadsDumps(l: Embedding)
    ensures Loads(Dumps(l)) == Some(l)
  {
    var s := Dumps(l);
    if |l| > 0 {
      DumpsBody(l);
      ItemsTextStart(l);
      assert s[1] == ItemsText(l)[0];
      ParseItemsText(s[1..], l, "");
    }
  }
}
