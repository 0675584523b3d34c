/**
 The value types of the Logic-Hypostasis Base validator: truth values, defect
 categories, the defect tensor (the verdict), attribute horizons and the
 fixed-shape decomposition of an utterance.
 */
module LhbCore {

  /** Epistemic status attached to a verdict; UNDEFINED and CONTRADICTORY are outcomes of their own. */
  datatype TruthValue = True | False | Undefined | Contradictory

  /** The closed set of defect categories; `None` is the "valid" sentinel. */
  datatype DefectType =
    | None
    | BoundaryViolation
    | SelfExpansion
    | CategoryError
    | SubjectObjectMerge
    | RelationConflict
    | Unobservable
    | ChainBroken

  /**
   The verdict: defect category, severity level, truth value and confidence
   strength. The strength only ever takes the constants 0.0, 0.8 and 1.0.
   */
  datatype DefectTensor = DefectTensor(kind: DefectType, level: int, truthValue: TruthValue, strength: real)
  {
    /** A tensor reports a valid utterance exactly when its category is `None`. */
    predicate IsValid() {
      kind == None
    }
  }

  /** The default-constructed tensor, which doubles as the "valid" verdict. */
  const ValidTensor := DefectTensor(None, 0, True, 0.0)

  /**
   The attribute labels that define what an entity is for classification,
   or an "infinite" marker for an unbounded entity.
   */
  datatype Horizon = Horizon(attributes: set<string>, isInfinite: bool)
  {
    /** An infinite horizon contains every horizon; a finite one those whose attributes it has. */
    predicate Contains(other: Horizon) {
      isInfinite || other.attributes <= attributes
    }

    /**
     Horizon equality as the repository writes it: two infinite horizons are
     equal, and otherwise the attribute sets decide, whatever the flags say.
     */
    predicate Equal(other: Horizon) {
      (isInfinite && other.isInfinite) || attributes == other.attributes
    }

    /** The equality the horizon's design describes: both infinite, or both finite with the same attributes. */
    predicate EquivalentTo(other: Horizon) {
      if isInfinite || other.isInfinite then isInfinite && other.isInfinite
      else attributes == other.attributes
    }
  }

  /** The default horizon: no attributes, finite. */
  const EmptyHorizon := Horizon({}, false)

  /**
   Every field of an utterance except its defect slot. The rules read only
   the relation, the transform, the two horizons and the self-reference flag;
   the subject, the object and the hypostasis level are carried unread.
   */
  datatype Decomposition = Decomposition(
    subject: string,
    obj: string,
    relation: string,
    transform: string,
    hypostasisLevel: int,
    subjectHorizon: Horizon,
    objectHorizon: Horizon,
    isSelfReferential: bool)

  /** Containment is reflexive, and an infinite horizon contains every other horizon. */
  lemma ContainsReflexive(h: Horizon, other: Horizon)
    ensures h.Contains(h)
    ensures h.isInfinite ==> h.Contains(other)
    ensures !h.isInfinite ==> (h.Contains(other) <==> other.attributes <= h.attributes)
  {
  }

  /**
   Containment is not transitive: a finite empty horizon contains an infinite
   empty one, which contains everything, yet not a non-empty finite horizon.
   */
  lemma ContainsNotTransitive()
    ensures var a, b, c := EmptyHorizon, Horizon({}, true), Horizon({"x"}, false);
      a.Contains(b) && b.Contains(c) && !a.Contains(c)
  {
    var c := Horizon({"x"}, false);
    assert "x" in c.attributes;
  }

  /** Containment through a finite middle horizon is transitive. */
  lemma ContainsTransitiveThroughFinite(a: Horizon, b: Horizon, c: Horizon)
    requires !b.isInfinite
    requires a.Contains(b) && b.Contains(c)
    ensures a.Contains(c)
  {
  }

  /** Equal horizons contain each other; the converse fails. */
  lemma EqualImpliesMutualContainment(a: Horizon, b: Horizon)
    ensures a.Equal(b) ==> a.Contains(b) && b.Contains(a)
    ensures var p, q := Horizon({}, true), Horizon({"x"}, false);
      p.Contains(q) && q.Contains(p) && !p.Equal(q)
  {
    var q := Horizon({"x"}, false);
    assert "x" in q.attributes;
  }

  /** As written, equality is reflexive and symmetric, and two infinite horizons are always equal. */
  lemma EqualBasics(a: Horizon, b: Horizon)
    ensures a.Equal(a)
    ensures a.Equal(b) <==> b.Equal(a)
    ensures a.isInfinite && b.isInfinite ==> a.Equal(b)
    ensures !(a.isInfinite && b.isInfinite) ==> (a.Equal(b) <==> a.attributes == b.attributes)
  {
  }

  /**
   As written, equality is not transitive: {a} infinite equals {b} infinite,
   which equals {b} finite, yet {a} infinite does not equal {b} finite. An
   infinite and a finite horizon with the same attributes compare equal.
   */
  lemma EqualNotTransitive()
    ensures var p, q, r := Horizon({"a"}, true), Horizon({"b"}, true), Horizon({"b"}, false);
      p.Equal(q) && q.Equal(r) && !p.Equal(r)
    ensures Horizon({"a"}, true).Equal(Horizon({"a"}, false))
  {
    var p, r := Horizon({"a"}, true), Horizon({"b"}, false);
    assert "a" in p.attributes && "a" !in r.attributes;
  }

  /** The corrected equality is an equivalence relation and separates infinite from finite horizons. */
  lemma EquivalentIsEquivalence(a: Horizon, b: Horizon, c: Horizon)
    ensures a.EquivalentTo(a)
    ensures a.EquivalentTo(b) <==> b.EquivalentTo(a)
    ensures a.EquivalentTo(b) && b.EquivalentTo(c) ==> a.EquivalentTo(c)
    ensures a.EquivalentTo(b) ==> a.isInfinite == b.isInfinite
    ensures a.EquivalentTo(b) ==> a.Equal(b)
  {
  }

  /** For `b` a subset of `s`, having more attributes is the same as being a proper superset. */
  lemma ProperSupersetByCount(s: set<string>, b: set<string>)
    requires b <= s
    ensures |s| > |b| <==> b < s
  {
    if b < s {
      assert s - b != {} by {
        if s - b == {} {
          forall z | z in s ensures z in b { assert z !in s - b; }
        }
      }
      var x :| x in s - b;
      SubsetCount(b, s - {x});
      assert s == (s - {x}) + {x};
      assert |s| == |s - {x}| + 1;
    } else {
      assert b == s;
    }
  }

  /** A subset never has more elements than its superset. */
  lemma SubsetCount(a: set<string>, b: set<string>)
    requires a <= b
    ensures |a| <= |b|
  {
    assert b == a + (b - a);
  }
}
