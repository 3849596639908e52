/** The rule that decides whether a captured photo may be uploaded: the classifier's
    output is a list of (class name, probability) pairs, and the photo passes when some
    pair names a tree with a probability above 0.7. */
module TreeCheck {
  import opened JsText

  /** One entry of `model.predict(canvas)`. */
  datatype Prediction = Prediction(className: string, probability: real)

  /** The probability a tree must beat (strictly). */
  const Threshold: real := 0.7

  /** `p.className.toLowerCase().includes('tree') && p.probability > 0.7` */
  predicate NamesTree(p: Prediction)
  {
    Includes(ToLowerAscii(p.className), "tree") && p.probability > Threshold
  }

  /** `prediction.some(NamesTree)`, evaluated left to right as Array.prototype.some does. */
  function IsTree(predictions: seq<Prediction>): (b: bool)
    ensures b <==> exists i :: 0 <= i < |predictions| && NamesTree(predictions[i])
  {
    if predictions == [] then false
    else if NamesTree(predictions[0]) then true
    else
      var rest := IsTree(predictions[1..]);
      assert forall i :: 1 <= i < |predictions| ==> predictions[i] == predictions[1..][i - 1];
      rest
  }

  /** An empty classifier output rejects the photo. */
  lemma {:induction false} EmptyRejects()
    ensures !IsTree([])
  {
  }

  /** Acceptance only depends on which predictions there are, not on their order. */
  lemma {:induction false} OrderDoesNotMatter(ps: seq<Prediction>, qs: seq<Prediction>)
    requires multiset(ps) == multiset(qs)
    ensures IsTree(ps) == IsTree(qs)
  {
    if IsTree(ps) {
      var i :| 0 <= i < |ps| && NamesTree(ps[i]);
      assert ps[i] in multiset(qs);
      var j :| 0 <= j < |qs| && qs[j] == ps[i];
    }
    if IsTree(qs) {
      var j :| 0 <= j < |qs| && NamesTree(qs[j]);
      assert qs[j] in multiset(ps);
      var i :| 0 <= i < |ps| && ps[i] == qs[j];
    }
  }

  /** Lower-casing leaves a string without capital letters as it is. */
  lemma {:induction false} LowerOfLowercase(s: string)
    requires forall i :: 0 <= i < |s| ==> !('A' <= s[i] <= 'Z')
    ensures ToLowerAscii(s) == s
  {
  }

  /** A name without capital letters that holds `tree` somewhere names a tree. */
  lemma {:induction false} TreeInLowercase(s: string, i: nat)
    requires forall j :: 0 <= j < |s| ==> !('A' <= s[j] <= 'Z')
    requires OccursAt(s, "tree", i)
    ensures Includes(ToLowerAscii(s), "tree")
  {
    LowerOfLowercase(s);
  }

  lemma {:induction false} UpperTreeLowered()
    ensures Includes(ToLowerAscii("TREE"), "tree")
  {
    assert ToLowerAscii("TREE") == "tree";
    assert OccursAt("tree", "tree", 0);
  }

  lemma {:induction false} OakTreeLowered()
    ensures Includes(ToLowerAscii("oak tree"), "tree")
  {
    assert "oak tree"[4..8] == "tree";
    TreeInLowercase("oak tree", 4);
  }

  /** Lower-casing meets the substring test: in "Oak TREE" the capitals of "TREE" become
      the `tree` at index 4. */
  lemma {:induction false} MixedCaseLowered()
    ensures Includes(ToLowerAscii("Oak TREE"), "tree")
  {
    var lowered := ToLowerAscii("Oak TREE");
    assert lowered[4] == 't' && lowered[5] == 'r' && lowered[6] == 'e' && lowered[7] == 'e';
    assert lowered[4..8] == "tree";
    assert OccursAt(lowered, "tree", 4);
  }

  lemma {:induction false} TreTooShort()
    ensures !Includes(ToLowerAscii("tre"), "tree")
  {
    assert |ToLowerAscii("tre")| == 3;
  }

  /** The class name is matched anywhere and in any ASCII case, and the threshold is
      strict. */
  lemma {:induction false} SubstringInAnyCase()
    ensures NamesTree(Prediction("TREE", 0.71))
    ensures NamesTree(Prediction("oak tree", 0.71))
    ensures NamesTree(Prediction("Oak TREE", 0.71))
    ensures !NamesTree(Prediction("oak tree", 0.7))
    ensures !NamesTree(Prediction("tre", 0.99))
  {
    UpperTreeLowered();
    OakTreeLowered();
    MixedCaseLowered();
    TreTooShort();
  }

  /** A confident tree accepts the photo whatever else the classifier saw; a tree at
      probability 0.5 alone does not. */
  lemma {:induction false} ClassifierScenarios()
    ensures IsTree([Prediction("tree", 0.92), Prediction("dog", 0.3)])
    ensures !IsTree([Prediction("tree", 0.5)])
  {
    assert "tree"[0..4] == "tree";
    TreeInLowercase("tree", 0);
    assert NamesTree(Prediction("tree", 0.92));
  }
}
