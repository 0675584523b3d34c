# Logic-Hypostasis Base validator in Dafny

This project models the Logic-Hypostasis Base (LHB) validator. The validator
takes a statement that has already been broken into subject, object, relation
and transform. The statement also carries an attribute horizon for the subject
and for the object, and a self-reference flag. The validator either judges the
statement valid or names one logical defect: self-expansion, subject–object
merge (the Liar), category error ("a white horse is not a horse") or boundary
violation (the omnipotence paradox).

Modules:

- `Text` (`text.dfy`): the two string operations the rules use. `Lower` is
  Python's `str.lower` restricted to ASCII letters. `Contains` is Python's
  substring test `t in s`. It is defined by recursive search and proved equal
  to the direct "some index starts an occurrence" definition.
- `LhbCore` (`core.dfy`): the value types `TruthValue`, `DefectType` and
  `DefectTensor` (the verdict, with `IsValid`), plus `Horizon` with its
  containment and equality, and `Decomposition`, every field of an utterance
  except its defect slot. The rules read only the relation, the transform,
  the two horizons and the self-reference flag.
- `LhbValidator` (`validator.dfy`): the rule predicates, `Classify` (the
  ordered stages as a pure function), the `Utterance` class with its mutable
  `defect` slot, and `Validator.Validate`. `Validate` resets the slot, runs the
  stages in order with early returns and stores the verdict. It is proved to
  return and store `Classify` of the utterance and to change nothing else.
- `LhbScenarios` (`scenarios.dfy`): the repository's four demonstration cases,
  a self-expansion case, an empty-object category error
  (`EmptyObjectIsCategoryError`) and a category error for each exclusion
  relation (`ExclusionRelationsGiveCategoryError`), each as a lemma about its
  verdict; one run of
  the Liar case through the `Validator` object; and `ValidateTwice`, which
  validates one utterance twice with the same validator.

Two consequences of the code a reader may not expect, both modelled as the
code behaves:

- Horizon equality compares attribute sets whenever the two horizons are not
  both infinite. So an infinite and a finite horizon with the same attributes
  compare equal. See Findings.
- Disjoint attribute sets avoid a category error only when the object's set
  is non-empty. The empty set is a subset of every set. So an empty object
  set gives a category error when three things hold: the relation is an
  exclusion relation, the subject's set is non-empty, and the self-reference
  stage does not fire (`EmptyObjectIsCategoryError`). With both sets empty,
  `len(s) > len(b)` is `0 > 0`, which is false, so no category error arises.

The category-error test compares counts (`len(s) > len(b)` together with
`b <= s`). `ProperSupersetByCount` proves this is the same as `b < s`, and
`Classify` states the rule with `<`.

## Model

| member | source | states |
|---|---|---|
| `Text.LowerChar` | IMPLEMENTATION/lhb_validator.py:176 | an ASCII upper-case letter maps to its lower-case letter (32 code points on); every other character, "≠" included, is unchanged |
| `Text.LowerIsLower` | IMPLEMENTATION/lhb_validator.py:176 | lower-casing yields a string with no upper-case letter, and leaves an already lower-case string as it is |
| `Text.LowerIdempotent` | IMPLEMENTATION/lhb_validator.py:206 | lower-casing twice is the same as lower-casing once |
| `Text.ContainsIffOccurs` | IMPLEMENTATION/lhb_validator.py:176 | the substring test holds exactly when some index of the haystack starts an occurrence of the needle |
| `Text.MissingCharNotContained` | IMPLEMENTATION/lhb_validator.py:176 | a needle with a character the haystack lacks is not a substring of it |
| `Text.LowerKeepsAbsent` | IMPLEMENTATION/lhb_validator.py:176 | lower-casing does not produce a lower-case letter whose two cases were absent |
| `Text.MissingLetterNotContained` | IMPLEMENTATION/lhb_validator.py:176 | case-insensitive search fails for a needle with a letter absent from the haystack in both cases |
| `Text.LowerKeepsOccurrence` | IMPLEMENTATION/lhb_validator.py:186 | an occurrence of `u` in `s` makes `lower(u)` a substring of `lower(s)` |
| `LhbCore.ContainsReflexive` | IMPLEMENTATION/lhb_validator.py:63-66 | containment is reflexive; an infinite horizon contains every horizon; a finite one contains exactly the horizons whose attributes are a subset of its own |
| `LhbCore.ContainsNotTransitive` | IMPLEMENTATION/lhb_validator.py:63-66 | containment is not transitive: an empty finite horizon contains an empty infinite one, which contains {x}, yet it does not contain {x} |
| `LhbCore.ContainsTransitiveThroughFinite` | IMPLEMENTATION/lhb_validator.py:63-66 | containment through a finite middle horizon is transitive |
| `LhbCore.EqualImpliesMutualContainment` | IMPLEMENTATION/lhb_validator.py:63-73 | equal horizons contain each other; an infinite {} and a finite {x} contain each other but are not equal |
| `LhbCore.EqualBasics` | IMPLEMENTATION/lhb_validator.py:68-73 | equality is reflexive and symmetric; two infinite horizons are equal; otherwise equality is equality of attribute sets |
| `LhbCore.EqualNotTransitive` | IMPLEMENTATION/lhb_validator.py:68-73 | as written, equality is not transitive, and an infinite and a finite horizon with the same attributes compare equal |
| `LhbCore.EquivalentIsEquivalence` | IMPLEMENTATION/lhb_validator.py:68-73 | the corrected equality is reflexive, symmetric and transitive; it never equates an infinite with a finite horizon; it implies the written equality |
| `LhbCore.ProperSupersetByCount` | IMPLEMENTATION/lhb_validator.py:205 | for an object set inside the subject set, "the subject has more attributes" holds exactly when the object set is a proper subset |
| `LhbValidator.Classify` | IMPLEMENTATION/lhb_validator.py:102-167 | for each category, the exact conditions under which it is the verdict, with stage order deciding; the verdict is one of five fixed tensors; RELATION_CONFLICT, UNOBSERVABLE and CHAIN_BROKEN never occur; the verdict is valid exactly when it is the default tensor and no stage fires |
| `LhbValidator.SelfExpansionWins` | IMPLEMENTATION/lhb_validator.py:113-121 | a self-referential expanding or redefining transform gives SELF_EXPANSION (5, FALSE, 1.0) whatever the relation and horizons are |
| `LhbValidator.CategoryErrorNeedsProperSuperset` | IMPLEMENTATION/lhb_validator.py:191-213 | equal sets, a subject set inside the object set, and disjoint sets with a non-empty object set never give CATEGORY_ERROR |
| `LhbValidator.CategoryErrorFires` | IMPLEMENTATION/lhb_validator.py:135-142 | an utterance on which the self-reference stage does not fire, whose object set is a proper subset of the subject set and whose lower-cased relation is "is not", "≠" or "non" gets CATEGORY_ERROR (3, FALSE, 0.8) |
| `LhbValidator.ClassifyCaseInsensitive` | IMPLEMENTATION/lhb_validator.py:171-213 | lower-casing the relation and transform beforehand does not change the verdict |
| `LhbValidator.ClassifyIgnoresNames` | IMPLEMENTATION/lhb_validator.py:80-89 | the subject name, the object name and the hypostasis level do not influence the verdict |
| `LhbValidator.Utterance.constructor` | IMPLEMENTATION/lhb_validator.py:75-92 | a new utterance holds the given fields, with level 1, empty finite horizons, no self-reference and the default (valid) tensor in the defect slot, each unless given otherwise |
| `LhbValidator.Validator.constructor` | IMPLEMENTATION/lhb_validator.py:99-100 | a new validator has an empty log |
| `LhbValidator.Validator.Validate` | IMPLEMENTATION/lhb_validator.py:102-167 | the returned tensor equals the new `u.defect` and equals `Classify` of the utterance; no other field of the utterance changes; the previous `defect` plays no part |
| `LhbScenarios.ValidateTwice` | IMPLEMENTATION/lhb_validator.py:106-109 | validating twice gives the same verdict both times, and the slot holds it |
| `LhbScenarios.LiarParadoxIsMerge` | IMPLEMENTATION/lhb_validator.py:233-245 | "This sentence is false" gives SUBJECT_OBJECT_MERGE (5, UNDEFINED, 1.0) |
| `LhbScenarios.LiarParadoxTransform` | IMPLEMENTATION/lhb_validator.py:239 | the Liar's transform contains neither "expand" nor "redefine" once lower-cased |
| `LhbScenarios.LiarParadoxRelation` | IMPLEMENTATION/lhb_validator.py:238 | the Liar's relation contains "false" once lower-cased |
| `LhbScenarios.OmnipotenceIsBoundaryViolation` | IMPLEMENTATION/lhb_validator.py:250-261 | the unliftable-stone case gives BOUNDARY_VIOLATION (5, FALSE, 1.0) |
| `LhbScenarios.WhiteHorseIsCategoryError` | IMPLEMENTATION/lhb_validator.py:266-277 | "white horse is not horse" gives CATEGORY_ERROR (3, FALSE, 0.8) |
| `LhbScenarios.CatOnMatIsValid` | IMPLEMENTATION/lhb_validator.py:282-293 | "the cat sits on the mat" gives the valid default tensor |
| `LhbScenarios.ExpandBoundaryIsSelfExpansion` | IMPLEMENTATION/lhb_validator.py:113-131 | a self-referential "expand boundary" gives SELF_EXPANSION for every relation, including one that says "true" or "false" |
| `LhbScenarios.ExclusionRelationsGiveCategoryError` | IMPLEMENTATION/lhb_validator.py:205-206 | with the white-horse horizons, each of "IS NOT", "≠" and "Non" as the relation gives CATEGORY_ERROR, so all three exclusion relations are recognised in any case |
| `LhbScenarios.EmptyObjectIsCategoryError` | IMPLEMENTATION/lhb_validator.py:205-206 | an empty object set with relation "is not" against a non-empty subject set gives CATEGORY_ERROR |
| `LhbScenarios.ValidateLiarParadox` | IMPLEMENTATION/lhb_validator.py:235-245 | the Liar case built with the record's defaults and run through `Validate` returns SUBJECT_OBJECT_MERGE |

## Left out

- The demonstration script `run_tests` and its console output (lines 226-303). Its four cases are the scenario lemmas.
- `DefectTensor.__str__` and the symbol strings of `TruthValue` ("⊤", "⊥"). They are used only for display.
- The strength is a `real` constant (0.0, 0.8 or 1.0), not a floating-point number. The source never does arithmetic on it.
- `Text.Lower` lower-cases ASCII letters only. Python's `str.lower` also lower-cases other letters and can change a string's length. This does not change any verdict. Only two non-ASCII characters lower-case to ASCII letters: U+212A (Kelvin sign) becomes "k", and U+0130 becomes "i" followed by U+0307. No needle ("expand", "redefine", "create_unliftable", "false", "true") contains "k" or U+0307, and none ends in "i", so neither character can take part in a match. No exclusion relation ("is not", "≠", "non") contains "k". A relation made equal to "is not" through U+0130 would need U+0307 in the result, which "is not" does not contain.
- `Horizon.__eq__` returns false for an argument that is not a `Horizon`. The model is typed, so that case cannot arise.
- The members Python generates for the dataclasses (`__repr__`, and `__eq__` for every record except `Horizon`) are not modelled.
- `LhbValidator.Validator.Validate`: the reserved relation-conflict stage never fires, so its branch holds `assert false` instead of the assignment of the RELATION_CONFLICT tensor. That tensor appears only in `Classify`.
- Aliasing of the tensor is not modelled. In the source, the object stored in `u.defect` is the object returned, so a caller who mutates one mutates the other. Here the tensor is an immutable value.
- `axioms_log` is carried as a field and never written, as in the source. `hypostasis_level`, `subject` and `object_` are carried and never read.

## Findings

| source | as written | input that shows it | evidently intended | confidence | as-written member | corrected member |
|---|---|---|---|---|---|---|
| IMPLEMENTATION/lhb_validator.py:68-73 | `__eq__` returns true when both horizons are infinite, and otherwise compares only the attribute sets, ignoring the flags | infinite {a} == infinite {b} and infinite {b} == finite {b}, but infinite {a} != finite {b}; also infinite {a} == finite {a} | horizons are equal when both are infinite, or both are finite with the same attributes, which makes equality an equivalence relation | medium; not executed | `LhbCore.EqualNotTransitive` | `LhbCore.EquivalentIsEquivalence` |

No operation of the validator uses horizon equality. The corrected predicate
`Horizon.EquivalentTo` is therefore used only by the lemma that proves its
properties.
