/** Codes for manually entered products: `KodsuzA` followed by a number
    zero-padded to four digits (`get_next_kodsuz_code`). The generator as
    written takes the lexicographically greatest existing code; `NextKodsuzCode`
    is the corrected generator, which takes the numerically greatest. */
module Kodsuz {
  import opened Wrappers
  import opened Text
  import opened Numerals
  import opened Records

  const PREFIX := "KodsuzA"

  /** Lexicographic order on strings by code point, which is MongoDB's order
      on UTF-8 strings. */
  predicate StrLe(a: string, b: string)
    decreases |a|
  {
    a == [] || (b != [] && (a[0] < b[0] || (a[0] == b[0] && StrLe(a[1..], b[1..]))))
  }

  lemma {:induction false} StrLeRefl(a: string)
    ensures StrLe(a, a)
    decreases |a|
  {
    if a != [] {
      StrLeRefl(a[1..]);
    }
  }

  lemma {:induction false} StrLeTotal(a: string, b: string)
    ensures StrLe(a, b) || StrLe(b, a)
    decreases |a|
  {
    if a != [] && b != [] && a[0] == b[0] {
      StrLeTotal(a[1..], b[1..]);
    }
  }

  lemma {:induction false} StrLeTrans(a: string, b: string, c: string)
    requires StrLe(a, b) && StrLe(b, c)
    ensures StrLe(a, c)
    decreases |a|
  {
    if a != [] && a[0] == b[0] && b[0] == c[0] {
      StrLeTrans(a[1..], b[1..], c[1..]);
    }
  }

  /** The product's web-service code matches the pattern `^KodsuzA`. */
  predicate HasKodsuzCode(p: Product) {
    p.data.webServiceCode.Some? && StartsWith(p.data.webServiceCode.value, PREFIX)
  }

  /** The web-service codes that match the pattern `^KodsuzA`, in store order. */
  function KodsuzCodes(products: seq<Product>): (codes: seq<string>)
    ensures forall c :: c in codes ==> StartsWith(c, PREFIX)
    ensures forall p :: p in products && HasKodsuzCode(p) ==> p.data.webServiceCode.value in codes
  {
    if products == [] then []
    else
      var rest := KodsuzCodes(products[1..]);
      var code := products[0].data.webServiceCode;
      if HasKodsuzCode(products[0]) then [code.value] + rest else rest
  }

  /** The code a descending sort puts first. */
  function Greatest(codes: seq<string>): (g: string)
    requires codes != []
    ensures g in codes && forall c :: c in codes ==> StrLe(c, g)
  {
    if |codes| == 1 then StrLeRefl(codes[0]); codes[0]
    else
      var g := Greatest(codes[1..]);
      StrLeTotal(g, codes[0]);
      StrLeRefl(codes[0]);
      if StrLe(g, codes[0]) then
        assert forall c :: c in codes[1..] ==> StrLe(c, codes[0]) by {
          forall c | c in codes[1..] ensures StrLe(c, codes[0]) { StrLeTrans(c, g, codes[0]); }
        }
        codes[0]
      else g
  }

  /** Python's `s.replace(pat, '')`: every non-overlapping occurrence of `pat`,
      scanning from the left, is removed. */
  function RemoveAll(s: string, pat: string): string
    requires pat != []
    decreases |s|
  {
    if |s| < |pat| then s
    else if s[..|pat|] == pat then RemoveAll(s[|pat|..], pat)
    else [s[0]] + RemoveAll(s[1..], pat)
  }

  /** Why the generator as written can fail. */
  datatype KodsuzError = SuffixNotANumber

  /** `get_next_kodsuz_code` as written: take the lexicographically greatest
      code matching `^KodsuzA`, strip every `KodsuzA` from it, read the rest with
      `int()` and add one; with no such code, start at one. A suffix that
      `int()` rejects raises, here `Err`. */
  function NextKodsuzCodeAsWritten(products: seq<Product>): (r: Result<string, KodsuzError>)
    ensures KodsuzCodes(products) == [] ==> r == Ok("KodsuzA0001")
    ensures KodsuzCodes(products) != [] ==>
      var number := PyInt(RemoveAll(Greatest(KodsuzCodes(products)), PREFIX));
      (r.Err? <==> number.None?) &&
      (number.Some? ==> r == Ok(PREFIX + FormatZeroPad4(number.value + 1)))
  {
    var codes := KodsuzCodes(products);
    if codes == [] then FirstFormatted(); Ok(PREFIX + FormatZeroPad4(1))
    else
      match PyInt(RemoveAll(Greatest(codes), PREFIX))
      case None => Err(SuffixNotANumber)
      case Some(n) => Ok(PREFIX + FormatZeroPad4(n + 1))
  }

  /** Removing the prefix from a string without a `K` changes nothing. */
  lemma {:induction false} RemoveAllNoK(t: string)
    requires 'K' !in t
    ensures RemoveAll(t, PREFIX) == t
    decreases |t|
  {
    if |t| >= |PREFIX| {
      assert t[0] != 'K';
      assert t[..|PREFIX|] != PREFIX by { assert t[..|PREFIX|][0] == t[0]; }
      RemoveAllNoK(t[1..]);
      assert t == [t[0]] + t[1..];
    }
  }

  /** A formatted number holds no `K`. */
  lemma FormatHasNoK(n: int)
    ensures 'K' !in FormatZeroPad4(n)
  {
    var f := FormatZeroPad4(n);
    if n >= 0 {
      FormatZeroPad4Digits(n);
      assert forall k :: 0 <= k < |f| ==> IsDigit(f[k]);
    } else {
      var d := NatToDigits(-n);
      var t := ZeroPad(d, 3);
      if |d| < 3 {
        LeadingZeros(3 - |d|, d);
      }
      assert forall k :: 0 <= k < |t| ==> IsDigit(t[k]);
      assert f == "-" + t;
      forall k | 0 <= k < |f| ensures f[k] != 'K' {
        if k > 0 { assert f[k] == t[k - 1]; }
      }
    }
  }

  /** The generator as written reads back the number of a code it generated:
      stripping the prefix and parsing gives `n` again. */
  lemma SuffixRoundTrip(n: int)
    ensures PyInt(RemoveAll(PREFIX + FormatZeroPad4(n), PREFIX)) == Some(n)
  {
    var f := FormatZeroPad4(n);
    var s := PREFIX + f;
    assert s[..|PREFIX|] == PREFIX && s[|PREFIX|..] == f;
    FormatHasNoK(n);
    RemoveAllNoK(f);
    PyIntOfFormat(n);
  }

  /** With no `KodsuzA` code in the store, the first code is `KodsuzA0001`. */
  lemma FirstCode(products: seq<Product>)
    requires forall p :: p in products ==> !HasKodsuzCode(p)
    ensures NextKodsuzCodeAsWritten(products) == Ok("KodsuzA0001")
  {
    if KodsuzCodes(products) != [] {
      var c := KodsuzCodes(products)[0];
      assert c in KodsuzCodes(products);
      KodsuzCodesFrom(products, c);
      assert false;
    }
    FirstFormatted();
  }

  /** The first code the generator writes. */
  lemma FirstFormatted()
    ensures PREFIX + FormatZeroPad4(1) == "KodsuzA0001"
  {
    assert NatToDigits(1) == "1";
    assert seq(3, _ => '0') == "000";
  }

  /** Every code listed comes from a product of the store. */
  lemma {:induction false} KodsuzCodesFrom(products: seq<Product>, c: string)
    requires c in KodsuzCodes(products)
    ensures exists p :: p in products && p.data.webServiceCode == Some(c)
  {
    var code := products[0].data.webServiceCode;
    if !(code.Some? && code.value == c) {
      KodsuzCodesFrom(products[1..], c);
      var p :| p in products[1..] && p.data.webServiceCode == Some(c);
      assert p in products;
    }
  }

  /** When the code sorted first is one the generator wrote for `n`, the next
      code is the one for `n + 1`. */
  lemma Successor(products: seq<Product>, n: int)
    requires KodsuzCodes(products) != []
    requires Greatest(KodsuzCodes(products)) == PREFIX + FormatZeroPad4(n)
    ensures NextKodsuzCodeAsWritten(products) == Ok(PREFIX + FormatZeroPad4(n + 1))
  {
    SuffixRoundTrip(n);
  }

  /** A product carrying only a web-service code, for the counterexample. */
  function ProductWithCode(id: string, code: string): Product {
    Product(id, ProductFields(None, Some(code), code, None, None, 0, None, true, None, None), "")
  }

  /** Two strings that agree up to position `i` and differ there are ordered by that position. */
  lemma {:induction false} StrLeAt(a: string, b: string, i: nat)
    requires i < |a| && i < |b| && a[..i] == b[..i] && a[i] < b[i]
    ensures StrLe(a, b)
    decreases i
  {
    if i > 0 {
      assert a[0] == a[..i][0] == b[..i][0] == b[0];
      assert a[1..][..i - 1] == a[..i][1..] && b[1..][..i - 1] == b[..i][1..];
      StrLeAt(a[1..], b[1..], i - 1);
    }
  }

  lemma Formatted9999()
    ensures PREFIX + FormatZeroPad4(9999) == "KodsuzA9999"
  {
    assert NatToDigits(9) == "9";
    assert NatToDigits(99) == "99";
    assert NatToDigits(999) == "999";
  }

  lemma Formatted10000()
    ensures PREFIX + FormatZeroPad4(10000) == "KodsuzA10000"
  {
    assert NatToDigits(1) == "1";
    assert NatToDigits(10) == "10";
    assert NatToDigits(100) == "100";
    assert NatToDigits(1000) == "1000";
  }

  lemma CodesOfPair(products: seq<Product>)
    requires products == [ProductWithCode("a", "KodsuzA9999"), ProductWithCode("b", "KodsuzA10000")]
    ensures KodsuzCodes(products) == ["KodsuzA9999", "KodsuzA10000"]
  {
    assert StartsWith("KodsuzA9999", PREFIX) && StartsWith("KodsuzA10000", PREFIX);
    assert products[1..] == [ProductWithCode("b", "KodsuzA10000")];
    assert products[1..][1..] == [];
    assert KodsuzCodes(products[1..]) == ["KodsuzA10000"];
  }

  lemma GreatestOfPair()
    ensures Greatest(["KodsuzA9999", "KodsuzA10000"]) == "KodsuzA9999"
  {
    var codes := ["KodsuzA9999", "KodsuzA10000"];
    var a, b := "KodsuzA10000", "KodsuzA9999";
    assert a[..7] == b[..7] && a[7] < b[7];
    StrLeAt(a, b, 7);
    assert codes[1..] == [a];
    assert Greatest(codes[1..]) == a;
  }

  /** Once `KodsuzA10000` exists, the lexicographically greatest code is
      `KodsuzA9999`, so the generator as written hands out `KodsuzA10000` a
      second time. */
  lemma DuplicateAfter9999(products: seq<Product>)
    requires products == [ProductWithCode("a", "KodsuzA9999"), ProductWithCode("b", "KodsuzA10000")]
    ensures NextKodsuzCodeAsWritten(products) == Ok("KodsuzA10000")
    ensures products[1].data.webServiceCode == Some("KodsuzA10000")
  {
    CodesOfPair(products);
    GreatestOfPair();
    Formatted9999();
    Successor(products, 9999);
    Formatted10000();
  }

  /** The number a code carries when it is the prefix followed by decimal digits only. */
  function SuffixNumber(code: string): Option<nat> {
    if StartsWith(code, PREFIX) && |code| > |PREFIX| && AllDigits(code[|PREFIX|..]) then
      Some(DigitsValue(code[|PREFIX|..]))
    else None
  }

  /** The product's web-service code is the prefix followed by decimal digits only. */
  predicate HasNumberedCode(p: Product) {
    p.data.webServiceCode.Some? && SuffixNumber(p.data.webServiceCode.value).Some?
  }

  /** The largest number carried by a well-formed `KodsuzA` code of the store, or 0. */
  function MaxSuffix(products: seq<Product>): (m: nat)
    ensures forall p :: p in products && HasNumberedCode(p) ==> SuffixNumber(p.data.webServiceCode.value).value <= m
  {
    if products == [] then 0
    else
      var rest := MaxSuffix(products[1..]);
      var code := products[0].data.webServiceCode;
      if HasNumberedCode(products[0]) && SuffixNumber(code.value).value > rest then
        SuffixNumber(code.value).value
      else rest
  }

  /** The generator reads back the number of every code it writes. */
  lemma SuffixNumberOfFormat(n: nat)
    ensures SuffixNumber(PREFIX + FormatZeroPad4(n)) == Some(n)
  {
    var f := FormatZeroPad4(n);
    FormatZeroPad4Digits(n);
    assert (PREFIX + f)[|PREFIX|..] == f;
    assert (PREFIX + f)[..|PREFIX|] == PREFIX;
  }

  /** The corrected `get_next_kodsuz_code`: one more than the numerically
      greatest well-formed code, so the new code is held by no product yet. */
  function NextKodsuzCode(products: seq<Product>): (code: string)
    ensures StartsWith(code, PREFIX)
    ensures SuffixNumber(code) == Some(MaxSuffix(products) + 1)
    ensures forall p :: p in products ==> p.data.webServiceCode != Some(code)
  {
    var m := MaxSuffix(products);
    var code := PREFIX + FormatZeroPad4(m + 1);
    SuffixNumberOfFormat(m + 1);
    code
  }

  /** On an empty store the corrected generator also starts at `KodsuzA0001`. */
  lemma CorrectedFirstCode()
    ensures NextKodsuzCode([]) == "KodsuzA0001"
  {
    assert NatToDigits(1) == "1";
  }

  /** A code the generator writes below ten thousand: the prefix followed by
      exactly four decimal digits. */
  predicate IsFourDigitCode(c: string) {
    StartsWith(c, PREFIX) && |c| == |PREFIX| + 4 && AllDigits(c[|PREFIX|..])
  }

  /** A common prefix does not change the order of two strings. */
  lemma {:induction false} StrLeDropPrefix(p: string, a: string, b: string)
    requires StrLe(p + a, p + b)
    ensures StrLe(a, b)
    decreases |p|
  {
    if p != [] {
      assert (p + a)[0] == p[0] == (p + b)[0];
      assert (p + a)[1..] == p[1..] + a && (p + b)[1..] == p[1..] + b;
      StrLeDropPrefix(p[1..], a, b);
    } else {
      assert p + a == a && p + b == b;
    }
  }

  lemma LeadingDigitOrder(da: nat, db: nat, p: nat, x: nat, y: nat)
    requires da < db && x < p
    ensures da * p + x <= db * p + y
  {
    assert da * p + x < (da + 1) * p;
    assert (da + 1) * p <= db * p;
  }

  /** For digit strings of one length, the string order is the numeric order. */
  lemma {:induction false} StrLeDigits(a: string, b: string)
    requires |a| == |b| && AllDigits(a) && AllDigits(b) && StrLe(a, b)
    ensures DigitsValue(a) <= DigitsValue(b)
    decreases |a|
  {
    if a != [] {
      DigitsValueFront(a);
      DigitsValueFront(b);
      assert AllDigits(a[1..]) && AllDigits(b[1..]);
      if a[0] == b[0] {
        StrLeDigits(a[1..], b[1..]);
      } else {
        DigitsValueBound(a[1..]);
        LeadingDigitOrder(DigitValue(a[0]), DigitValue(b[0]), Pow10(|a| - 1), DigitsValue(a[1..]), DigitsValue(b[1..]));
      }
    }
  }

  /** The greatest suffix number is 0 or the number of some stored code. */
  lemma {:induction false} MaxSuffixAttained(products: seq<Product>)
    ensures MaxSuffix(products) == 0 ||
            exists p :: p in products && HasNumberedCode(p) &&
                        SuffixNumber(p.data.webServiceCode.value).value == MaxSuffix(products)
  {
    if products != [] {
      MaxSuffixAttained(products[1..]);
      if MaxSuffix(products) != 0 && MaxSuffix(products) == MaxSuffix(products[1..]) {
        var p :| p in products[1..] && HasNumberedCode(p) &&
          SuffixNumber(p.data.webServiceCode.value).value == MaxSuffix(products[1..]);
        assert p in products;
      }
    }
  }

  /** The generator as written reads the number of a four-digit code. */
  lemma ReadFourDigitCode(c: string)
    requires IsFourDigitCode(c)
    ensures SuffixNumber(c).Some? && PyInt(RemoveAll(c, PREFIX)) == Some(SuffixNumber(c).value as int)
  {
    var d := c[|PREFIX|..];
    assert c == PREFIX + d;
    assert 'K' !in d by {
      forall k | 0 <= k < |d| ensures d[k] != 'K' { assert IsDigit(d[k]); }
    }
    assert RemoveAll(c, PREFIX) == RemoveAll(d, PREFIX) by { assert c[..|PREFIX|] == PREFIX; }
    RemoveAllNoK(d);
    assert IsDigit(d[0]);
  }

  /** Between four-digit codes, the string order is the order of their numbers. */
  lemma FourDigitOrder(c: string, g: string)
    requires IsFourDigitCode(c) && IsFourDigitCode(g) && StrLe(c, g)
    ensures SuffixNumber(c).Some? && SuffixNumber(g).Some?
    ensures SuffixNumber(c).value <= SuffixNumber(g).value
  {
    var e, d := c[|PREFIX|..], g[|PREFIX|..];
    assert c == PREFIX + e && g == PREFIX + d;
    StrLeDropPrefix(PREFIX, e, d);
    StrLeDigits(e, d);
  }

  /** The code sorted first carries a number no stored number exceeds. */
  lemma GreatestAtLeastMax(products: seq<Product>, g: string)
    requires KodsuzCodes(products) != [] && g == Greatest(KodsuzCodes(products))
    requires forall c :: c in KodsuzCodes(products) ==> IsFourDigitCode(c)
    ensures SuffixNumber(g).Some? && MaxSuffix(products) <= SuffixNumber(g).value
  {
    assert IsFourDigitCode(g);
    MaxSuffixAttained(products);
    if MaxSuffix(products) != 0 {
      var q :| q in products && HasNumberedCode(q) &&
        SuffixNumber(q.data.webServiceCode.value).value == MaxSuffix(products);
      var c := q.data.webServiceCode.value;
      assert HasKodsuzCode(q);
      assert c in KodsuzCodes(products);
      FourDigitOrder(c, g);
    }
  }

  /** While every stored `KodsuzA` code is the prefix and four digits, the code
      sorted first carries the greatest number. */
  lemma GreatestCarriesMax(products: seq<Product>)
    requires KodsuzCodes(products) != []
    requires forall c :: c in KodsuzCodes(products) ==> IsFourDigitCode(c)
    ensures SuffixNumber(Greatest(KodsuzCodes(products))) == Some(MaxSuffix(products))
  {
    var g := Greatest(KodsuzCodes(products));
    GreatestAtLeastMax(products, g);
    KodsuzCodesFrom(products, g);
    var owner :| owner in products && owner.data.webServiceCode == Some(g);
    assert HasNumberedCode(owner);
  }

  /** With no `KodsuzA` code stored, no product carries a number. */
  lemma NoCodesNoMax(products: seq<Product>)
    requires KodsuzCodes(products) == []
    ensures MaxSuffix(products) == 0
  {
    MaxSuffixAttained(products);
    if MaxSuffix(products) != 0 {
      var p :| p in products && HasNumberedCode(p) && SuffixNumber(p.data.webServiceCode.value).value == MaxSuffix(products);
      assert false;
    }
  }

  /** While every stored `KodsuzA` code is the prefix and four digits, the
      string order is the numeric order, and the generator as written hands out
      the same code as the corrected one. */
  lemma AsWrittenAgrees(products: seq<Product>)
    requires forall c :: c in KodsuzCodes(products) ==> IsFourDigitCode(c)
    ensures NextKodsuzCodeAsWritten(products) == Ok(NextKodsuzCode(products))
  {
    var codes := KodsuzCodes(products);
    if codes == [] {
      NoCodesNoMax(products);
      FirstFormatted();
    } else {
      var g := Greatest(codes);
      assert IsFourDigitCode(g);
      ReadFourDigitCode(g);
      GreatestCarriesMax(products);
    }
  }

  /** While every stored `KodsuzA` code is the prefix and four digits, the
      generator as written hands out a code no stored product holds. */
  lemma AsWrittenFresh(products: seq<Product>)
    requires forall c :: c in KodsuzCodes(products) ==> IsFourDigitCode(c)
    ensures NextKodsuzCodeAsWritten(products).Ok?
    ensures forall p :: p in products ==> p.data.webServiceCode != Some(NextKodsuzCodeAsWritten(products).value)
  {
    AsWrittenAgrees(products);
  }
}
