/**
 The validator engine: the rule predicates, the ordered classification as a
 pure function, and the utterance object whose defect slot `Validate` fills in.
 */
module LhbValidator {
  import opened Text
  import opened LhbCore

  // The verdict each stage produces when it fires.
  const SelfExpansionTensor := DefectTensor(SelfExpansion, 5, False, 1.0)
  const SubjectObjectMergeTensor := DefectTensor(SubjectObjectMerge, 5, Undefined, 1.0)
  const CategoryErrorTensor := DefectTensor(CategoryError, 3, False, 0.8)
  const BoundaryViolationTensor := DefectTensor(BoundaryViolation, 5, False, 1.0)
  const RelationConflictTensor := DefectTensor(RelationConflict, 1, True, 1.0)

  /** Every verdict `Validate` can produce. */
  const ReachableVerdicts := {ValidTensor, SelfExpansionTensor, SubjectObjectMergeTensor,
                              CategoryErrorTensor, BoundaryViolationTensor}

  /** The relations (already lower-cased) that assert exclusion from a category. */
  const ExclusionRelations := ["is not", "≠", "non"]

  /** The transform tries to change the subject's own definition. */
  predicate CheckSelfExpansion(d: Decomposition) {
    Contains(Lower(d.transform), "expand") || Contains(Lower(d.transform), "redefine")
  }

  /** A self-referential statement that asserts a truth value (the Liar shape). */
  predicate CheckSubjectObjectMerge(d: Decomposition) {
    d.isSelfReferential && (Contains(Lower(d.relation), "false") || Contains(Lower(d.relation), "true"))
  }

  /**
   The relation is a legitimate edge unless the object's attributes are a
   subset of the subject's, the subject has more of them, and the relation
   asserts exclusion.
   */
  predicate IsValidRelationEdge(d: Decomposition) {
    var s, b := d.subjectHorizon.attributes, d.objectHorizon.attributes;
    !(b <= s && |s| > |b| && Lower(d.relation) in ExclusionRelations)
  }

  /** An unbounded subject asked to create something it cannot lift. */
  predicate CheckBoundaryViolation(d: Decomposition) {
    d.subjectHorizon.isInfinite && Contains(Lower(d.transform), "create_unliftable")
  }

  /** The reserved mutual-exclusion rule, which never fires. */
  predicate CheckRelationConflict(d: Decomposition) {
    false
  }

  /** The first stage (self-reference conservation) fires. */
  predicate SelfReferenceStageFires(d: Decomposition) {
    d.isSelfReferential && (CheckSelfExpansion(d) || CheckSubjectObjectMerge(d))
  }

  /**
   The verdict for a decomposition: the stages in order, the first that fires
   deciding. The postconditions say for each category exactly when it is the
   outcome, that the reserved categories never are, and that the payload is
   the fixed one of that category.
   */
  function Classify(d: Decomposition): (r: DefectTensor)
    ensures r in ReachableVerdicts
    ensures r.kind == SelfExpansion <==> d.isSelfReferential && CheckSelfExpansion(d)
    ensures r.kind == SubjectObjectMerge <==>
      d.isSelfReferential && !CheckSelfExpansion(d)
      && (Contains(Lower(d.relation), "false") || Contains(Lower(d.relation), "true"))
    ensures r.kind == CategoryError <==>
      !SelfReferenceStageFires(d)
      && d.objectHorizon.attributes < d.subjectHorizon.attributes
      && Lower(d.relation) in ExclusionRelations
    ensures r.kind == BoundaryViolation <==>
      !SelfReferenceStageFires(d) && IsValidRelationEdge(d)
      && d.subjectHorizon.isInfinite && Contains(Lower(d.transform), "create_unliftable")
    ensures r.kind !in {RelationConflict, Unobservable, ChainBroken}
    ensures r.IsValid() <==> r == ValidTensor
    ensures r.IsValid() <==>
      !SelfReferenceStageFires(d) && IsValidRelationEdge(d) && !CheckBoundaryViolation(d)
  {
    var s, b := d.subjectHorizon.attributes, d.objectHorizon.attributes;
    assert b <= s ==> (|s| > |b| <==> b < s) by {
      if b <= s { ProperSupersetByCount(s, b); }
    }
    if d.isSelfReferential && CheckSelfExpansion(d) then SelfExpansionTensor
    else if d.isSelfReferential && CheckSubjectObjectMerge(d) then SubjectObjectMergeTensor
    else if !IsValidRelationEdge(d) then CategoryErrorTensor
    else if CheckBoundaryViolation(d) then BoundaryViolationTensor
    else if CheckRelationConflict(d) then RelationConflictTensor
    else ValidTensor
  }

  /**
   Self-expansion takes priority over every later rule: whatever the relation,
   the horizons or the other strings, it decides the verdict.
   */
  lemma SelfExpansionWins(d: Decomposition, e: Decomposition)
    requires d.isSelfReferential && CheckSelfExpansion(d)
    requires e.isSelfReferential && e.transform == d.transform
    ensures Classify(d) == Classify(e) == SelfExpansionTensor
  {
  }

  /**
   The category-error rule is sensitive to the direction of the subset: equal
   attribute sets, a subject whose attributes are a subset of the object's,
   and disjoint sets with a non-empty object never produce a category error.
   */
  lemma CategoryErrorNeedsProperSuperset(d: Decomposition)
    requires var s, b := d.subjectHorizon.attributes, d.objectHorizon.attributes;
      s <= b || (s * b == {} && b != {})
    ensures Classify(d).kind != CategoryError
  {
    var s, b := d.subjectHorizon.attributes, d.objectHorizon.attributes;
    if s * b == {} && b != {} {
      var x :| x in b;
      assert x !in s * b;
    }
  }

  /** A category error is reported whenever an exclusion relation is asserted against a proper superset. */
  lemma CategoryErrorFires(d: Decomposition)
    requires !SelfReferenceStageFires(d)
    requires d.objectHorizon.attributes < d.subjectHorizon.attributes
    requires Lower(d.relation) in ExclusionRelations
    ensures Classify(d) == CategoryErrorTensor
  {
  }

  /**
   Matching is case-insensitive: lower-casing the relation and the transform
   beforehand does not change the verdict.
   */
  lemma ClassifyCaseInsensitive(d: Decomposition)
    ensures Classify(d.(relation := Lower(d.relation), transform := Lower(d.transform))) == Classify(d)
  {
    LowerIdempotent(d.relation);
    LowerIdempotent(d.transform);
  }

  /** Only the relation, the transform, the horizons and the self-reference flag influence the verdict. */
  lemma ClassifyIgnoresNames(d: Decomposition, subject: string, obj: string, level: int)
    ensures Classify(d.(subject := subject, obj := obj, hypostasisLevel := level)) == Classify(d)
  {
  }

  /**
   The unit under analysis. The strings, level, horizons and flag are supplied
   by the caller; `defect` is the slot the validator writes its verdict into.
   */
  class Utterance {
    var subject: string
    var obj: string
    var relation: string
    var transform: string
    var hypostasisLevel: int
    var subjectHorizon: Horizon
    var objectHorizon: Horizon
    var isSelfReferential: bool
    var defect: DefectTensor

    /** A new utterance with the defaults of its record: level 1, empty finite horizons, not self-referential, no defect. */
    constructor (subject: string, obj: string, relation: string, transform: string,
                 hypostasisLevel: int := 1, subjectHorizon: Horizon := EmptyHorizon,
                 objectHorizon: Horizon := EmptyHorizon, isSelfReferential: bool := false,
                 defect: DefectTensor := ValidTensor)
      ensures Parts() == Decomposition(subject, obj, relation, transform, hypostasisLevel,
                                       subjectHorizon, objectHorizon, isSelfReferential)
      ensures this.defect == defect
    {
      this.subject := subject;
      this.obj := obj;
      this.relation := relation;
      this.transform := transform;
      this.hypostasisLevel := hypostasisLevel;
      this.subjectHorizon := subjectHorizon;
      this.objectHorizon := objectHorizon;
      this.isSelfReferential := isSelfReferential;
      this.defect := defect;
    }

    /** Everything about the utterance except its defect slot. */
    function Parts(): Decomposition
      reads this
    {
      Decomposition(subject, obj, relation, transform, hypostasisLevel,
                    subjectHorizon, objectHorizon, isSelfReferential)
    }
  }

  /** The validator engine; its log is carried but never written. */
  class Validator {
    var axiomsLog: seq<string>

    constructor ()
      ensures axiomsLog == []
    {
      axiomsLog := [];
    }

    /**
     Runs the ordered battery of checks on `u`, stores the verdict in
     `u.defect` and returns it. Nothing but the defect slot changes, and the
     verdict does not depend on the slot's previous value.
     */
    method Validate(u: Utterance) returns (verdict: DefectTensor)
      modifies u`defect
      ensures verdict == u.defect
      ensures verdict == Classify(u.Parts())
      ensures u.Parts() == old(u.Parts())
    {
      u.defect := ValidTensor;

      if u.isSelfReferential {
        if CheckSelfExpansion(u.Parts()) {
          u.defect := SelfExpansionTensor;
          return u.defect;
        }
        if CheckSubjectObjectMerge(u.Parts()) {
          u.defect := SubjectObjectMergeTensor;
          return u.defect;
        }
      }

      if !IsValidRelationEdge(u.Parts()) {
        u.defect := CategoryErrorTensor;
        return u.defect;
      }

      if u.subjectHorizon.isInfinite && Contains(Lower(u.transform), "create_unliftable") {
        u.defect := BoundaryViolationTensor;
        return u.defect;
      }

      // The reserved stage would store RelationConflictTensor, but its check never fires.
      if CheckRelationConflict(u.Parts()) {
        assert false;
      }

      return u.defect;
    }
  }
}
