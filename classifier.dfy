/**
 * `classify_sentence`: a fixed table of keyword rules over the lower-cased
 * sentence. A word rule asks whether a whitespace-separated token equals the
 * word; a phrase rule asks whether the phrase occurs anywhere in the text.
 */
module Classifier {
  import opened Text

  /** A label is the position of the rule that adds it, the rules counted in
      the order they are written; the bathtub rule adds two labels, at
      positions 4 and 5. */
  newtype Label = i: int | 0 <= i < 42

  const L2a_1: Label := 0
  const L2b_1: Label := 1
  const L2d: Label := 2
  const L2e_1: Label := 3
  const L2f_1: Label := 4
  const L2f_2: Label := 5
  const L2f_4: Label := 6
  const L2g_1: Label := 7
  const L2h_1: Label := 8
  const L3a_1: Label := 9
  const L3b: Label := 10
  const L3c: Label := 11
  const L3d_1: Label := 12
  const L3d_2: Label := 13
  const L3e_1: Label := 14
  const L3f: Label := 15
  const L3g: Label := 16
  const L4a: Label := 17
  const L4b: Label := 18
  const L4c_1: Label := 19
  const L4d: Label := 20
  const L4e: Label := 21
  const L4f: Label := 22
  const L4g: Label := 23
  const L4h: Label := 24
  const L4i: Label := 25
  const L4j: Label := 26
  const L5a_1: Label := 27
  const L5a_2: Label := 28
  const L5a_3: Label := 29
  const L5a_4: Label := 30
  const L5a_5: Label := 31
  const L5a_6: Label := 32
  const L5a_7: Label := 33
  const L5b: Label := 34
  const L5c_1: Label := 35
  const L6a: Label := 36
  const L6b_1: Label := 37
  const L6c_1: Label := 38
  const L6d_1: Label := 39
  const L6e: Label := 40
  const L7a: Label := 41

  /** The code written to the output for each label, in table order. */
  const Codes: seq<string> := [
    "2a_1", "2b_1", "2d", "2e_1", "2f_1", "2f_2", "2f_4",
    "2g_1", "2h_1", "3a_1", "3b", "3c", "3d_1", "3d_2",
    "3e_1", "3f", "3g", "4a", "4b", "4c_1", "4d",
    "4e", "4f", "4g", "4h", "4i", "4j", "5a_1",
    "5a_2", "5a_3", "5a_4", "5a_5", "5a_6", "5a_7", "5b",
    "5c_1", "6a", "6b_1", "6c_1", "6d_1", "6e", "7a"
  ]

  /** The code written to the output for a label. */
  function Code(l: Label): string {
    Codes[l]
  }

  /** Character `k` of a code as a number, 0 past its end. */
  function CodeDigit(c: string, k: nat): int {
    if k < |c| then c[k] as int + 1 else 0
  }

  /** Alphabetical order on the first four characters of two codes. */
  predicate CodeBefore(a: string, b: string) {
    || CodeDigit(a, 0) < CodeDigit(b, 0)
    || (CodeDigit(a, 0) == CodeDigit(b, 0) && CodeDigit(a, 1) < CodeDigit(b, 1))
    || (CodeDigit(a, 0) == CodeDigit(b, 0) && CodeDigit(a, 1) == CodeDigit(b, 1) && CodeDigit(a, 2) < CodeDigit(b, 2))
    || (CodeDigit(a, 0) == CodeDigit(b, 0) && CodeDigit(a, 1) == CodeDigit(b, 1) && CodeDigit(a, 2) == CodeDigit(b, 2)
        && CodeDigit(a, 3) < CodeDigit(b, 3))
  }

  lemma CodeBeforeTransitive(a: string, b: string, c: string)
    requires CodeBefore(a, b) && CodeBefore(b, c)
    ensures CodeBefore(a, c)
  {
  }

  lemma CodeBeforeDistinct(a: string, b: string)
    requires CodeBefore(a, b)
    ensures a != b
  {
  }

  // The table is in strictly increasing alphabetical order, one row of it at a time.
  lemma CodesOrderedRow0(i: nat)
    requires 0 <= i < 7
    ensures CodeBefore(Codes[i], Codes[i + 1])
  {
    if i == 0 {
    } else if i == 1 {
    } else if i == 2 {
    } else if i == 3 {
    } else if i == 4 {
    } else if i == 5 {
    } else {
    }
  }

  lemma CodesOrderedRow1(i: nat)
    requires 7 <= i < 14
    ensures CodeBefore(Codes[i], Codes[i + 1])
  {
    if i == 7 {
    } else if i == 8 {
    } else if i == 9 {
    } else if i == 10 {
    } else if i == 11 {
    } else if i == 12 {
    } else {
    }
  }

  lemma CodesOrderedRow2(i: nat)
    requires 14 <= i < 21
    ensures CodeBefore(Codes[i], Codes[i + 1])
  {
    if i == 14 {
    } else if i == 15 {
    } else if i == 16 {
    } else if i == 17 {
    } else if i == 18 {
    } else if i == 19 {
    } else {
    }
  }

  lemma CodesOrderedRow3(i: nat)
    requires 21 <= i < 28
    ensures CodeBefore(Codes[i], Codes[i + 1])
  {
    if i == 21 {
    } else if i == 22 {
    } else if i == 23 {
    } else if i == 24 {
    } else if i == 25 {
    } else if i == 26 {
    } else {
    }
  }

  lemma CodesOrderedRow4(i: nat)
    requires 28 <= i < 35
    ensures CodeBefore(Codes[i], Codes[i + 1])
  {
    if i == 28 {
    } else if i == 29 {
    } else if i == 30 {
    } else if i == 31 {
    } else if i == 32 {
    } else if i == 33 {
    } else {
    }
  }

  lemma CodesOrderedRow5(i: nat)
    requires 35 <= i < 41
    ensures CodeBefore(Codes[i], Codes[i + 1])
  {
    if i == 35 {
    } else if i == 36 {
    } else if i == 37 {
    } else if i == 38 {
    } else if i == 39 {
    } else {
    }
  }

  lemma CodesOrderedStep(i: nat)
    requires i < 41
    ensures CodeBefore(Codes[i], Codes[i + 1])
  {
    if i < 7 {
      CodesOrderedRow0(i);
    } else if i < 14 {
      CodesOrderedRow1(i);
    } else if i < 21 {
      CodesOrderedRow2(i);
    } else if i < 28 {
      CodesOrderedRow3(i);
    } else if i < 35 {
      CodesOrderedRow4(i);
    } else {
      CodesOrderedRow5(i);
    }
  }

  lemma {:induction false} CodesOrdered(i: nat, j: nat)
    requires i < j < 42
    ensures CodeBefore(Codes[i], Codes[j])
    decreases j - i
  {
    CodesOrderedStep(i);
    if i + 1 < j {
      CodesOrdered(i + 1, j);
      CodeBeforeTransitive(Codes[i], Codes[i + 1], Codes[j]);
    }
  }

  /** Different labels are written with different codes. */
  lemma CodeInjective(a: Label, b: Label)
    ensures Code(a) == Code(b) ==> a == b
  {
    if a < b {
      CodesOrdered(a as nat, b as nat);
      CodeBeforeDistinct(Code(a), Code(b));
    } else if b < a {
      CodesOrdered(b as nat, a as nat);
      CodeBeforeDistinct(Code(b), Code(a));
    }
  }

  /** The bathtub rule adds two labels at once. */
  predicate BathtubRule(s: string, w: seq<string>) {
    "bathtub" in w && ("safe" in w || Contains(s, "climb-in shower"))
  }

  /** The rule table, label by label: when the rule adding `l` fires for the
      lower-cased text `s` and its tokens `w`. */
  predicate Fires(l: Label, s: string, w: seq<string>) {
    if l == L2a_1 then "stairs" in w || "steps" in w || "climbing" in w
    else if l == L2b_1 then "ramp" in w || "incline" in w
    else if l == L2d then ("dark" in w || Contains(s, "poor lighting")) && ("room" in w || "lobby" in w)
    else if l == L2e_1 then "shower" in w
    else if l == L2f_1 then BathtubRule(s, w)
    else if l == L2f_2 then BathtubRule(s, w)
    else if l == L2f_4 then "toilet" in w && "rails" in w
    else if l == L2g_1 then "elevators" in w || "elevator" in w
    else if l == L2h_1 then "escalator" in w || "escalators" in w
    else if l == L3a_1 then "transport" in w && "options" in w
    else if l == L3b then "buggy" in w || "buggies" in w
    else if l == L3c then "shuttle" in w
    else if l == L3d_1 then "conveniences" in w || "convenience" in w
    else if l == L3d_2 then "central" in w && "location" in w
    else if l == L3e_1 then "medical" in w
    else if l == L3f then "taxi" in w
    else if l == L3g then "doctor" in w
    else if l == L4a then ("quiet" in w || "noise" in w || "noisy" in w) && "room" in w
    else if l == L4b then "atm" in w
    else if l == L4c_1 then "language" in w && "spoken" in w
    else if l == L4d then "flexible" in w && ("check-in" in w || "check-out" in w)
    else if l == L4e then "pillow" in w
    else if l == L4f then Contains(s, "air conditioning")
    else if l == L4g then Contains(s, "power points") || Contains(s, "power outlets")
    else if l == L4h then Contains(s, "valet parking")
    else if l == L4i then Contains(s, "concierge") || Contains(s, "luggage handling") || Contains(s, "luggage storage")
    else if l == L4j then "parking" in w && !Contains(s, "valet parking")
    else if l == L5a_1 then "vegetarian" in w
    else if l == L5a_2 then "vegan" in w
    else if l == L5a_3 then "halal" in w
    else if l == L5a_4 then "low" in w && "sodium" in w
    else if l == L5a_5 then "diabetic" in w
    else if l == L5a_6 then "low" in w && "spice" in w
    else if l == L5a_7 then ("customize" in w || "flexible" in w) && "food" in w
    else if l == L5b then Contains(s, "coffee maker") || Contains(s, "tea maker")
    else if l == L5c_1 then "near" in w && ("restaurants" in w || "cafe" in w || "eateries" in w)
    else if l == L6a then ("anti-skid" in w || "non-slip" in w) && "floor" in w
    else if l == L6b_1 then "spa" in w || "wellness" in w
    else if l == L6c_1 then "yoga" in w || "meditation" in w || "pilates" in w
    else if l == L6d_1 then "gym" in w
    else if l == L6e then Contains(s, "adult friendly") || ("quiet" in w && ("pool" in w || "hotel" in w))
    else /* l == L7a */ "elderly" in w || "senior" in w || "older" in w
  }

  /** The labels of the first `n` rules that fire, in table order. */
  function Collected(s: string, w: seq<string>, n: nat): (r: seq<Label>)
    requires n <= 42
    ensures forall l :: l in r <==> (l as int) < n && Fires(l, s, w)
    ensures forall i, j :: 0 <= i < j < |r| ==> r[i] < r[j]
    ensures forall i :: 0 <= i < |r| ==> (r[i] as int) < n
  {
    if n == 0 then []
    else
      var prev := Collected(s, w, n - 1);
      var l := (n - 1) as Label;
      if Fires(l, s, w) then prev + [l] else prev
  }

  /** `classify_sentence(sentence)`: the labels whose rule fires for the
      lower-cased sentence and its tokens, each once. Python's `list(set)` has
      no fixed order; the model lists the labels in table order. */
  function ClassifySentence(sentence: string): (r: seq<Label>)
    ensures forall l :: l in r <==> Fires(l, Lower(sentence), Words(Lower(sentence)))
    ensures forall i, j :: 0 <= i < j < |r| ==> r[i] != r[j]
  {
    var s := Lower(sentence);
    Collected(s, Words(s), 42)
  }

  // ---------------------------------------------------------------------------
  // What the rules promise.
  // ---------------------------------------------------------------------------

  /** Upper and lower case give the same labels. */
  lemma ClassifyIgnoresCase(sentence: string)
    ensures ClassifySentence(Lower(sentence)) == ClassifySentence(sentence)
  {
    LowerIdempotent(sentence);
  }

  lemma ValetRule(s: string, w: seq<string>)
    ensures Fires(L4h, s, w) <==> Contains(s, "valet parking")
  {
  }

  /** "4h" comes exactly with the phrase "valet parking". */
  lemma ValetParkingLabel(sentence: string)
    ensures L4h in ClassifySentence(sentence) <==> Contains(Lower(sentence), "valet parking")
  {
    ValetRule(Lower(sentence), Words(Lower(sentence)));
  }

  /** "4j" comes exactly with the word "parking" when "valet parking" is absent. */
  lemma PlainParkingLabel(sentence: string)
    ensures L4j in ClassifySentence(sentence) <==>
      "parking" in Words(Lower(sentence)) && !Contains(Lower(sentence), "valet parking")
  {
    var s := Lower(sentence);
    var w := Words(s);
    assert Fires(L4j, s, w) == ("parking" in w && !Contains(s, "valet parking"));
  }

  /** The two parking labels never come together. */
  lemma ParkingLabels(sentence: string)
    ensures !(L4h in ClassifySentence(sentence) && L4j in ClassifySentence(sentence))
  {
    ValetParkingLabel(sentence);
    PlainParkingLabel(sentence);
  }

  /** "2f_1" and "2f_2" come as a pair, and only with the word "bathtub". */
  lemma BathtubLabels(sentence: string)
    ensures L2f_1 in ClassifySentence(sentence) <==> L2f_2 in ClassifySentence(sentence)
    ensures L2f_1 in ClassifySentence(sentence) ==> "bathtub" in Words(Lower(sentence))
  {
    var s := Lower(sentence);
    var w := Words(s);
    assert Fires(L2f_1, s, w) == BathtubRule(s, w) == Fires(L2f_2, s, w);
  }

  /** "2e_1" comes exactly with the token "shower". */
  lemma ShowerLabel(sentence: string)
    ensures L2e_1 in ClassifySentence(sentence) <==> "shower" in Words(Lower(sentence))
  {
  }

  /** A lone token is its own split. */
  lemma WordsOfToken(t: string)
    requires t != [] && forall i :: 0 <= i < |t| ==> !IsSpace(t[i])
    ensures Words(t) == [t]
  {
    assert TokenLength(t) == |t|;
    assert t[|t|..] == [];
    assert t[..|t|] == t;
  }

  /** A lower-case sentence of one token labels "2e_1" exactly when that token
      is "shower". */
  lemma LoneTokenShower(t: string)
    requires t != [] && forall i :: 0 <= i < |t| ==> !IsSpace(t[i])
    requires forall i :: 0 <= i < |t| ==> !('A' <= t[i] <= 'Z')
    ensures L2e_1 in ClassifySentence(t) <==> t == "shower"
  {
    LowerUnchanged(t);
    WordsOfToken(t);
    ShowerLabel(t);
  }

  /** Word rules match whole tokens: the token "shower" labels "2e_1" ... */
  lemma ShowerTokenLabelled()
    ensures L2e_1 in ClassifySentence("shower")
  {
    LoneTokenShower("shower");
  }

  /** ... while "showers" ... */
  lemma ShowersTokenUnlabelled()
    ensures L2e_1 !in ClassifySentence("showers")
  {
    LoneTokenShower("showers");
  }

  /** ... and "shower." do not. */
  lemma ShowerDotTokenUnlabelled()
    ensures L2e_1 !in ClassifySentence("shower.")
  {
    LoneTokenShower("shower.");
  }
}
