/**
 The repository's four demonstration cases, a self-expansion case, a category
 error for each exclusion relation and one for an empty object set, each as a
 fact about the verdict; the Liar case run through the validator object; and
 a double validation of one utterance.
 */
module LhbScenarios {
  import opened Text
  import opened LhbCore
  import opened LhbValidator

  /** "This sentence is false." */
  const LiarParadox := Decomposition("I/Speaker", "This Sentence", "is False", "Declare Truth Value", 1,
    Horizon({"consciousness"}, false), Horizon({"text", "self-ref"}, false), true)

  /** "Create a stone God cannot lift." */
  const OmnipotenceParadox := Decomposition("God", "Unliftable Stone", "Create", "Create_Unliftable_Object", 1,
    Horizon({}, true), Horizon({"heavy", "unliftable_by_God"}, false), false)

  /** "White horse is not horse." */
  const WhiteHorse := Decomposition("White Horse", "Horse", "is Not", "Classify", 1,
    Horizon({"Shape:Horse", "Color:White"}, false), Horizon({"Shape:Horse"}, false), false)

  /** "The cat sits on the mat." */
  const CatOnMat := Decomposition("Cat", "Mat", "on", "Sit", 1,
    Horizon({"Animal"}, false), Horizon({"Furniture"}, false), false)

  /** The Liar is a subject–object merge with an undefined truth value. */
  lemma LiarParadoxIsMerge()
    ensures Classify(LiarParadox) == SubjectObjectMergeTensor
  {
    LiarParadoxTransform();
    LiarParadoxRelation();
  }

  /** The Liar's transform names no expansion or redefinition. */
  lemma LiarParadoxTransform()
    ensures !Contains(Lower("Declare Truth Value"), "expand")
    ensures !Contains(Lower("Declare Truth Value"), "redefine")
  {
    MissingLetterNotContained("Declare Truth Value", "expand", 'x');
    MissingLetterNotContained("Declare Truth Value", "redefine", 'f');
  }

  /** The Liar's relation asserts falsity. */
  lemma LiarParadoxRelation()
    ensures Contains(Lower(LiarParadox.relation), "false")
  {
    assert Lower("False") == "false";
    LowerKeepsOccurrence("is False", "False", 3);
  }

  /** The omnipotence paradox is a boundary violation of an infinite subject. */
  lemma OmnipotenceIsBoundaryViolation()
    ensures Classify(OmnipotenceParadox) == BoundaryViolationTensor
  {
    assert "heavy" in OmnipotenceParadox.objectHorizon.attributes;
    assert Contains(Lower("Create_Unliftable_Object"), "create_unliftable") by {
      assert Lower("Create_Unliftable") == "create_unliftable";
      LowerKeepsOccurrence("Create_Unliftable_Object", "Create_Unliftable", 0);
    }
  }

  /** "White horse is not horse" is a category error. */
  lemma WhiteHorseIsCategoryError()
    ensures Classify(WhiteHorse) == CategoryErrorTensor
  {
    assert Lower("is Not") == "is not";
    var s, b := WhiteHorse.subjectHorizon.attributes, WhiteHorse.objectHorizon.attributes;
    assert "Color:White" in s - b;
    CategoryErrorFires(WhiteHorse);
  }

  /** The cat on the mat is valid. */
  lemma CatOnMatIsValid()
    ensures Classify(CatOnMat) == ValidTensor
  {
    var s, b := CatOnMat.subjectHorizon.attributes, CatOnMat.objectHorizon.attributes;
    assert "Furniture" in b - s;
  }

  /**
   A self-referential "expand boundary" is a self-expansion, even when its
   relation also asserts a truth value.
   */
  lemma ExpandBoundaryIsSelfExpansion(relation: string)
    ensures Classify(Decomposition("S", "S", relation, "expand boundary", 1, EmptyHorizon, EmptyHorizon, true))
      == SelfExpansionTensor
  {
    assert Lower("expand") == "expand";
    LowerKeepsOccurrence("expand boundary", "expand", 0);
  }

  /** Every exclusion relation, in any letter case, turns the white-horse horizons into a category error. */
  lemma ExclusionRelationsGiveCategoryError()
    ensures Classify(WhiteHorse.(relation := "IS NOT")) == CategoryErrorTensor
    ensures Classify(WhiteHorse.(relation := "≠")) == CategoryErrorTensor
    ensures Classify(WhiteHorse.(relation := "Non")) == CategoryErrorTensor
  {
    assert Lower("IS NOT") == "is not";
    assert Lower("≠") == "≠";
    assert Lower("Non") == "non";
    assert "Color:White" in WhiteHorse.subjectHorizon.attributes - WhiteHorse.objectHorizon.attributes;
  }

  /**
   Disjoint attribute sets still give a category error when the object's set
   is empty, because the empty set is a subset of every set.
   */
  lemma EmptyObjectIsCategoryError()
    ensures Classify(Decomposition("A", "B", "is not", "", 1, Horizon({"a"}, false), EmptyHorizon, false))
      == CategoryErrorTensor
  {
    assert Lower("is not") == "is not";
    assert "a" in Horizon({"a"}, false).attributes - EmptyHorizon.attributes;
  }

  /** The Liar case run through the validator object: the verdict is returned and stored. */
  method ValidateLiarParadox() returns (verdict: DefectTensor)
    ensures verdict == SubjectObjectMergeTensor
  {
    var u := new Utterance("I/Speaker", "This Sentence", "is False", "Declare Truth Value",
                           subjectHorizon := Horizon({"consciousness"}, false),
                           objectHorizon := Horizon({"text", "self-ref"}, false),
                           isSelfReferential := true);
    var validator := new Validator();
    verdict := validator.Validate(u);
    LiarParadoxIsMerge();
    assert u.defect == verdict;
  }

  /** Validating twice in a row gives the same verdict, and the slot holds it. */
  method ValidateTwice(v: Validator, u: Utterance) returns (first: DefectTensor, second: DefectTensor)
    modifies u`defect
    ensures first == second == u.defect
    ensures first == Classify(old(u.Parts()))
  {
    first := v.Validate(u);
    second := v.Validate(u);
  }
}
