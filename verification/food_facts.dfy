/**
 * Facts about the shipped food table and worked estimates: an exact
 * match, scaling with the amount, a partial match, a blank name and a
 * name in a script no key uses.
 */
module FoodFacts {
  import opened Wrappers
  import opened Text
  import opened Tables
  import opened Foods

  /** Any spelling of "chicken breast" is an exact match at 165 kcal per 100 g. */
  lemma ChickenBreastExact(name: string)
    requires Normalize(name) == "chicken breast"
    ensures Estimate(name, 100.0, None).tier == Exact
    ensures Estimate(name, 100.0, None).calories == 165.0
  {
    assert HasKey(FoodCalories, "chicken breast") && Get(FoodCalories, "chicken breast", GenericRate) == 165;
    KcalHundreds(165, 1);
  }

  /** "rice" is a key, at 130 kcal per 100 g. */
  lemma RiceEntry()
    ensures HasKey(FoodCalories, "rice") && Get(FoodCalories, "rice", GenericRate) == 130
  {
    GetFirst(FoodCalories, "rice", GenericRate, 8);
  }

  /** 200 g of rice is twice its 130 kcal per 100 g. */
  lemma RiceScales(name: string)
    requires Normalize(name) == "rice"
    ensures Estimate(name, 200.0, None).tier == Exact
    ensures Estimate(name, 200.0, None).calories == 260.0
  {
    RiceEntry();
    KcalHundreds(130, 2);
  }

  /** Every key has between 3 ("tea") and 14 ("chicken breast") characters. */
  lemma KeysShort()
    ensures forall i :: 0 <= i < |FoodCalories| ==> 3 <= |FoodCalories[i].0| <= 14
  {
  }

  /** The characters keys are spelt with: lower-case ASCII letters and the space. */
  predicate KeyChar(c: char) {
    'a' <= c <= 'z' || c == ' '
  }

  /** `s` is spelt with key characters only. */
  predicate KeySpelt(s: string) {
    forall j :: 0 <= j < |s| ==> KeyChar(s[j])
  }

  /**
   * The first nineteen keys are spelt with lower-case letters and spaces
   * only. The table is checked in two halves, a split with no meaning in
   * the program, only to keep each proof obligation small.
   */
  lemma KeysSpellingFirstHalf()
    ensures forall i :: 0 <= i < 19 ==> KeySpelt(FoodCalories[i].0)
  {
  }

  /** So are the last nineteen; see `KeysSpellingFirstHalf` for the split. */
  lemma KeysSpellingSecondHalf()
    ensures forall i :: 19 <= i < |FoodCalories| ==> KeySpelt(FoodCalories[i].0)
  {
  }

  /** Every key is spelt with lower-case letters and spaces only. */
  lemma KeysSpelling()
    ensures forall i :: 0 <= i < |FoodCalories| ==> KeySpelt(FoodCalories[i].0)
  {
    KeysSpellingFirstHalf();
    KeysSpellingSecondHalf();
  }

  /** A name longer than every key is not a key. */
  lemma LongNameNotKey(name: string)
    requires |name| > 14
    ensures !HasKey(FoodCalories, name)
  {
    KeysShort();
    HasKeyIff(FoodCalories, name);
  }

  /** "chicken breast" occurs in "grilled chicken breast". */
  lemma GrilledChickenBreastHit(b: string)
    requires b == "grilled chicken breast"
    ensures PartialHit("chicken breast", b)
  {
    assert b[8..22] == "chicken breast";
    assert OccursAt("chicken breast", b, 8);
  }

  /** The first entry is the first partial match of "grilled chicken breast". */
  lemma GrilledChickenBreastResolves(n: string)
    requires n == "grilled chicken breast"
    ensures Resolve(FoodCalories, n) == Resolution(Approximate("chicken breast"), 165)
  {
    LongNameNotKey(n);
    GrilledChickenBreastHit(n);
    assert FoodCalories[0] == ("chicken breast", 165);
    assert FirstPartial(FoodCalories, n) == 0;
  }

  /** A name containing a key is priced as the first key it contains. */
  lemma GrilledChickenBreastApproximate(name: string)
    requires Normalize(name) == "grilled chicken breast"
    ensures Estimate(name, 100.0, None).tier == Approximate("chicken breast")
    ensures Estimate(name, 100.0, None).calories == 165.0
  {
    GrilledChickenBreastResolves(Normalize(name));
    KcalHundreds(165, 1);
  }

  /** In a table of non-empty keys, the empty name is no key and matches the first entry. */
  lemma BlankResolves(t: Table<int>)
    requires |t| > 0 && forall i :: 0 <= i < |t| ==> |t[i].0| > 0
    ensures Resolve(t, "") == Resolution(Approximate(t[0].0), t[0].1)
  {
    HasKeyIff(t, "");
    OccursTrivially(t[0].0);
    assert PartialHit(t[0].0, "");
  }

  /** A blank name partially matches the first key: the empty string occurs in every string. */
  lemma BlankNameApproximate(name: string, amountG: real, amountDisplay: Option<string>)
    requires AllSpace(name)
    ensures Estimate(name, amountG, amountDisplay).tier == Approximate("chicken breast")
    ensures Estimate(name, amountG, amountDisplay).calories == Kcal(165, amountG)
  {
    forall k | 0 <= k < |name| ensures IsSpace(Lower(name)[k]) {
      LowerKeepsSpace(name[k]);
    }
    assert Normalize(name) == "";
    KeysShort();
    BlankResolves(FoodCalories);
  }

  /** A name sharing no character with any key is no key and matches none. */
  lemma ForeignResolves(t: Table<int>, n: string)
    requires forall i :: 0 <= i < |t| ==> |t[i].0| > 0 && KeySpelt(t[i].0)
    requires |n| > 0 && forall k :: 0 <= k < |n| ==> !KeyChar(n[k])
    ensures Resolve(t, n) == Resolution(GenericEstimate, GenericRate)
  {
    forall i | 0 <= i < |t| ensures t[i].0 != n && !PartialHit(t[i].0, n) {
      assert KeyChar(t[i].0[0]);
      NotOccursByChar(t[i].0, n, 0);
      NotOccursByChar(n, t[i].0, 0);
    }
    HasKeyIff(t, n);
    assert FirstPartial(t, n) == |t|;
  }

  /** A name spelt without any character a key uses matches no key: it gets the generic rate. */
  lemma ForeignNameGeneric(name: string, amountG: real, amountDisplay: Option<string>)
    requires |Normalize(name)| > 0
    requires forall k :: 0 <= k < |Normalize(name)| ==> !KeyChar(Normalize(name)[k])
    ensures Estimate(name, amountG, amountDisplay).tier == GenericEstimate
    ensures Estimate(name, amountG, amountDisplay).calories == Kcal(GenericRate, amountG)
  {
    KeysShort();
    KeysSpelling();
    ForeignResolves(FoodCalories, Normalize(name));
    assert Resolve(FoodCalories, Normalize(name)) == Resolution(GenericEstimate, GenericRate);
    assert Estimate(name, amountG, amountDisplay).tier == GenericEstimate;
  }

  /** "寿司" (sushi) is already in normal form. */
  lemma SushiNormal(s: string)
    requires s == "寿司"
    ensures Normalize(s) == s
  {
    assert Lower(s) == s;
    assert Trimmed(s) by {
      assert !IsSpace(s[0]) && !IsSpace(s[|s| - 1]);
    }
    assert "" + s + "" == s;
    StripPadded("", s, "");
  }

  /** "寿司" (sushi), in any padding, shares no character with any key: 100 g get the generic 150 kcal. */
  lemma SushiGeneric(name: string)
    requires Normalize(name) == "寿司"
    ensures Estimate(name, 100.0, None).tier == GenericEstimate
    ensures Estimate(name, 100.0, None).calories == 150.0
  {
    assert !KeyChar(Normalize(name)[0]) && !KeyChar(Normalize(name)[1]);
    ForeignNameGeneric(name, 100.0, None);
    KcalHundreds(GenericRate, 1);
  }
}
