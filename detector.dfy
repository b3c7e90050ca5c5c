/**
 * The class-name unification of the vehicle detector: from the model's
 * id -> name table and an optional whitelist, build the unified name -> id
 * map, the list of target class ids and the id -> unified label map, or fail
 * when the model has none of the target classes.
 */
module Detector {
  import opened Wrappers

  /** The model's class-name table: a dict id -> name, or a list whose positions are the ids. */
  datatype ModelNames = NameDict(entries: seq<(int, string)>) | NameList(names: seq<string>)

  /** The unified tables the detector keeps; `nameOrder` is the insertion order of `nameToId`. */
  datatype ClassMapping = ClassMapping(
    nameToId: map<string, int>,
    nameOrder: seq<string>,
    targetClassIds: seq<int>,
    idToUnifiedLabel: map<int, string>)

  /** Raised when the model knows none of the target classes. */
  datatype MappingError = NoTargetClasses

  /** The labels looked for when no whitelist is given. */
  const DefaultTargets: seq<string> := ["car", "motorcycle", "motorbike"]

  /** No two entries share an id (the keys of a dict). */
  predicate DistinctIds(p: seq<(int, string)>) {
    forall i, j :: 0 <= i < j < |p| ==> p[i].0 != p[j].0
  }

  /** The table as (id, name) pairs in iteration order; a list is read as i |-> names[i]. */
  function IdToName(m: ModelNames): seq<(int, string)> {
    match m
    case NameDict(entries) => entries
    case NameList(names) => seq(|names|, i requires 0 <= i < |names| => (i, names[i]))
  }

  /** ASCII lower-casing of one character. */
  function LowerChar(ch: char): char {
    if 'A' <= ch <= 'Z' then (ch as int + 32) as char else ch
  }

  /** Lower-casing, character by character. */
  function Lower(s: string): (r: string)
    ensures |r| == |s|
    ensures forall i :: 0 <= i < |s| ==> r[i] == LowerChar(s[i])
  {
    if s == [] then [] else [LowerChar(s[0])] + Lower(s[1..])
  }

  /** Each whitelist entry lower-cased. */
  function LowerAll(ws: seq<string>): seq<string> {
    seq(|ws|, i requires 0 <= i < |ws| => Lower(ws[i]))
  }

  /** The labels matched against: the lower-cased whitelist if one is given and non-empty, else the defaults. */
  function TargetLabels(whitelist: Option<seq<string>>): seq<string> {
    if whitelist.Some? && |whitelist.value| > 0 then LowerAll(whitelist.value) else DefaultTargets
  }

  /** "motorbike" is unified to "motorcycle". */
  function Unify(l: string): string {
    if l == "motorbike" then "motorcycle" else l
  }

  /** The unified name a model class name matches, case-insensitively, if any. */
  function Hit(name: string, targets: seq<string>): Option<string> {
    var l := Lower(name);
    if l in targets then Some(Unify(l)) else None
  }

  predicate NoDuplicates<T(==)>(s: seq<T>) {
    forall i, j :: 0 <= i < j < |s| ==> s[i] != s[j]
  }

  /** A dict from unified name to id, with its insertion order. */
  datatype NameTable = NameTable(ids: map<string, int>, order: seq<string>)

  /** The loop that fills `name_to_id`: the first id whose name matches a unified name wins. */
  function NameToId(p: seq<(int, string)>, targets: seq<string>): (r: NameTable)
    ensures forall n :: n in r.order <==> n in r.ids
    ensures NoDuplicates(r.order)
    decreases |p|
  {
    if p == [] then NameTable(map[], [])
    else
      var t := NameToId(p[..|p| - 1], targets);
      var entry := p[|p| - 1];
      match Hit(entry.1, targets)
      case None => t
      case Some(n) => if n in t.ids then t else NameTable(t.ids[n := entry.0], t.order + [n])
  }

  /** `list(name_to_id.values())`: the ids in insertion order. */
  function ValuesInOrder(ids: map<string, int>, order: seq<string>): (r: seq<int>)
    requires forall n :: n in order ==> n in ids
    ensures |r| == |order|
  {
    seq(|order|, k requires 0 <= k < |order| => ids[order[k]])
  }

  /** `{cid: name for name, cid in name_to_id.items()}`: later entries overwrite earlier ones. */
  function Invert(ids: map<string, int>, order: seq<string>): map<int, string>
    requires forall n :: n in order ==> n in ids
    decreases |order|
  {
    if order == [] then map[]
    else Invert(ids, order[..|order| - 1])[ids[order[|order| - 1]] := order[|order| - 1]]
  }

  /** The whole unification, as a value. */
  function ClassMappingOf(m: ModelNames, whitelist: Option<seq<string>>): Result<ClassMapping, MappingError> {
    var t := NameToId(IdToName(m), TargetLabels(whitelist));
    var ids := ValuesInOrder(t.ids, t.order);
    if |ids| == 0 then Failure(NoTargetClasses)
    else Success(ClassMapping(t.ids, t.order, ids, Invert(t.ids, t.order)))
  }

  /** Index j holds the first entry of the table whose name unifies to n. */
  predicate FirstHit(p: seq<(int, string)>, targets: seq<string>, j: int, n: string) {
    && 0 <= j < |p|
    && Hit(p[j].1, targets) == Some(n)
    && (forall k :: 0 <= k < j ==> Hit(p[k].1, targets) != Some(n))
  }

  // ---------------------------------------------------------------------
  // Lemmas about the name table
  // ---------------------------------------------------------------------

  /** A unified name is a key exactly when some model class matches it. */
  lemma {:induction false} NameToIdKeys(p: seq<(int, string)>, targets: seq<string>, n: string)
    ensures n in NameToId(p, targets).ids <==> exists j :: 0 <= j < |p| && Hit(p[j].1, targets) == Some(n)
    decreases |p|
  {
    if p != [] {
      var init := p[..|p| - 1];
      NameToIdKeys(init, targets, n);
      if exists j :: 0 <= j < |init| && Hit(init[j].1, targets) == Some(n) {
        var j :| 0 <= j < |init| && Hit(init[j].1, targets) == Some(n);
        assert p[j] == init[j];
      }
      if exists j :: 0 <= j < |p| && Hit(p[j].1, targets) == Some(n) {
        var j :| 0 <= j < |p| && Hit(p[j].1, targets) == Some(n);
        if j < |p| - 1 {
          assert init[j] == p[j];
        }
      }
    }
  }

  /** First id wins: the id stored for a unified name is that of its first matching entry. */
  lemma {:induction false} NameToIdFirstWins(p: seq<(int, string)>, targets: seq<string>, j: int, n: string)
    requires FirstHit(p, targets, j, n)
    ensures n in NameToId(p, targets).ids && NameToId(p, targets).ids[n] == p[j].0
    decreases |p|
  {
    var init := p[..|p| - 1];
    if j < |p| - 1 {
      assert FirstHit(init, targets, j, n) by {
        forall k | 0 <= k < j ensures init[k] == p[k] { }
      }
      NameToIdFirstWins(init, targets, j, n);
    } else {
      NameToIdKeys(init, targets, n);
    }
  }

  /** Every stored id is the id of a table entry that matches its name. */
  lemma {:induction false} NameToIdValues(p: seq<(int, string)>, targets: seq<string>, n: string)
    requires n in NameToId(p, targets).ids
    ensures exists j :: 0 <= j < |p| && p[j].0 == NameToId(p, targets).ids[n] && Hit(p[j].1, targets) == Some(n)
    decreases |p|
  {
    var init := p[..|p| - 1];
    var t := NameToId(init, targets);
    if n in t.ids {
      NameToIdValues(init, targets, n);
      var j :| 0 <= j < |init| && init[j].0 == t.ids[n] && Hit(init[j].1, targets) == Some(n);
      assert p[j] == init[j];
    } else {
      assert p[|p| - 1].0 == NameToId(p, targets).ids[n];
    }
  }

  /** With distinct model ids, different unified names get different ids. */
  lemma NameToIdInjective(p: seq<(int, string)>, targets: seq<string>, n1: string, n2: string)
    requires DistinctIds(p)
    requires n1 in NameToId(p, targets).ids && n2 in NameToId(p, targets).ids && n1 != n2
    ensures NameToId(p, targets).ids[n1] != NameToId(p, targets).ids[n2]
  {
    var ids := NameToId(p, targets).ids;
    NameToIdValues(p, targets, n1);
    NameToIdValues(p, targets, n2);
    var j1 :| 0 <= j1 < |p| && p[j1].0 == ids[n1] && Hit(p[j1].1, targets) == Some(n1);
    var j2 :| 0 <= j2 < |p| && p[j2].0 == ids[n2] && Hit(p[j2].1, targets) == Some(n2);
    assert j1 != j2;
  }

  /** Lower-casing twice is lower-casing once. */
  lemma LowerIdempotent(s: string)
    ensures Lower(Lower(s)) == Lower(s)
  {
    assert forall i :: 0 <= i < |s| ==> LowerChar(LowerChar(s[i])) == LowerChar(s[i]);
  }

  /** Matching only looks at the lower-cased name. */
  lemma HitCaseInsensitive(name: string, targets: seq<string>)
    ensures Hit(name, targets) == Hit(Lower(name), targets)
  {
    LowerIdempotent(name);
  }

  /** Two tables with the same ids and the same names up to case give the same name table. */
  lemma {:induction false} NameToIdCaseInsensitive(p1: seq<(int, string)>, p2: seq<(int, string)>, targets: seq<string>)
    requires |p1| == |p2|
    requires forall j :: 0 <= j < |p1| ==> p1[j].0 == p2[j].0 && Lower(p1[j].1) == Lower(p2[j].1)
    ensures NameToId(p1, targets) == NameToId(p2, targets)
    decreases |p1|
  {
    if p1 != [] {
      var n := |p1| - 1;
      forall j | 0 <= j < n ensures p1[..n][j] == p1[j] && p2[..n][j] == p2[j] { }
      NameToIdCaseInsensitive(p1[..n], p2[..n], targets);
    }
  }

  /** A string without upper-case ASCII letters is its own lower-casing. */
  lemma LowerOfLowerCase(s: string)
    requires forall i :: 0 <= i < |s| ==> !('A' <= s[i] <= 'Z')
    ensures Lower(s) == s
  {
  }

  /** The default labels are lower-case. */
  lemma DefaultTargetsLowerCase(k: int)
    requires 0 <= k < |DefaultTargets|
    ensures Lower(DefaultTargets[k]) == DefaultTargets[k]
  {
    var x := DefaultTargets[k];
    assert x == "car" || x == "motorcycle" || x == "motorbike";
    assert forall i :: 0 <= i < |x| ==> 'a' <= x[i] <= 'z';
    LowerOfLowerCase(x);
  }

  /** The labels matched against are lower-case. */
  lemma TargetsAreLowerCase(whitelist: Option<seq<string>>, k: int)
    requires 0 <= k < |TargetLabels(whitelist)|
    ensures Lower(TargetLabels(whitelist)[k]) == TargetLabels(whitelist)[k]
  {
    if whitelist.Some? && |whitelist.value| > 0 {
      LowerIdempotent(whitelist.value[k]);
    } else {
      DefaultTargetsLowerCase(k);
    }
  }

  /**
   * Without a whitelist only "car" and "motorcycle" can be keys, and a model
   * class named "motorbike" (in any case) makes "motorcycle" a key.
   */
  lemma DefaultKeys(p: seq<(int, string)>, whitelist: Option<seq<string>>)
    requires whitelist.None? || whitelist.value == []
    ensures var ids := NameToId(p, TargetLabels(whitelist)).ids;
      && (forall n :: n in ids ==> n == "car" || n == "motorcycle")
      && (forall j :: 0 <= j < |p| && Lower(p[j].1) == "motorbike" ==> "motorcycle" in ids)
  {
    var targets := TargetLabels(whitelist);
    var ids := NameToId(p, targets).ids;
    forall n | n in ids ensures n == "car" || n == "motorcycle" {
      NameToIdKeys(p, targets, n);
    }
    forall j | 0 <= j < |p| && Lower(p[j].1) == "motorbike" ensures "motorcycle" in ids {
      assert Hit(p[j].1, targets) == Some("motorcycle");
      NameToIdKeys(p, targets, "motorcycle");
    }
  }

  // ---------------------------------------------------------------------
  // Lemmas about the derived tables
  // ---------------------------------------------------------------------

  /** Inverting an injective name -> id map gives back every name under its id, and nothing else. */
  lemma {:induction false} InvertIsInverse(ids: map<string, int>, order: seq<string>)
    requires forall n :: n in order ==> n in ids
    requires forall n1, n2 :: n1 in ids && n2 in ids && n1 != n2 ==> ids[n1] != ids[n2]
    ensures var inv := Invert(ids, order);
      && (forall n :: n in order ==> ids[n] in inv && inv[ids[n]] == n)
      && (forall cid :: cid in inv ==> inv[cid] in order && ids[inv[cid]] == cid)
    decreases |order|
  {
    if order != [] {
      var init := order[..|order| - 1];
      InvertIsInverse(ids, init);
      forall n | n in order ensures n in init || n == order[|order| - 1] {
        var k :| 0 <= k < |order| && order[k] == n;
        if k < |order| - 1 { assert init[k] == n; }
      }
      forall n | n in init ensures n in order {
        var k :| 0 <= k < |init| && init[k] == n;
        assert order[k] == n;
      }
    }
  }

  /** `target_class_ids` lists each stored id once, and nothing else. */
  lemma TargetIdsAreValues(ids: map<string, int>, order: seq<string>)
    requires forall n :: n in order <==> n in ids
    requires NoDuplicates(order)
    requires forall n1, n2 :: n1 in ids && n2 in ids && n1 != n2 ==> ids[n1] != ids[n2]
    ensures var r := ValuesInOrder(ids, order);
      && (forall n :: n in ids ==> ids[n] in r)
      && (forall k :: 0 <= k < |r| ==> r[k] in ids.Values)
      && NoDuplicates(r)
  {
    var r := ValuesInOrder(ids, order);
    forall n | n in ids ensures ids[n] in r {
      var k :| 0 <= k < |order| && order[k] == n;
      assert r[k] == ids[n];
    }
  }

  /** Construction fails exactly when no model class matches a target label. */
  lemma FailsIffNoMatch(m: ModelNames, whitelist: Option<seq<string>>)
    ensures var p, targets := IdToName(m), TargetLabels(whitelist);
      ClassMappingOf(m, whitelist).Failure? <==> forall j :: 0 <= j < |p| ==> Hit(p[j].1, targets).None?
  {
    var p, targets := IdToName(m), TargetLabels(whitelist);
    var t := NameToId(p, targets);
    if exists j :: 0 <= j < |p| && Hit(p[j].1, targets).Some? {
      var j :| 0 <= j < |p| && Hit(p[j].1, targets).Some?;
      NameToIdKeys(p, targets, Hit(p[j].1, targets).value);
      assert t.order != [];
    } else if t.order != [] {
      NameToIdKeys(p, targets, t.order[0]);
    }
  }

  /**
   * On success: every matched model class has its unified name as a key, the
   * first matching id is stored, the target ids are exactly the stored ids,
   * and the id -> label map is the inverse of the name -> id map.
   */
  lemma MappingCorrect(m: ModelNames, whitelist: Option<seq<string>>)
    requires m.NameDict? ==> DistinctIds(m.entries)
    requires ClassMappingOf(m, whitelist).Success?
    ensures var p, targets, c := IdToName(m), TargetLabels(whitelist), ClassMappingOf(m, whitelist).value;
      && (forall j, n :: FirstHit(p, targets, j, n) ==> n in c.nameToId && c.nameToId[n] == p[j].0)
      && (forall n :: n in c.nameToId ==> exists j :: FirstHit(p, targets, j, n))
      && (forall n :: n in c.nameToId ==> c.nameToId[n] in c.targetClassIds)
      && (forall k :: 0 <= k < |c.targetClassIds| ==> c.targetClassIds[k] in c.nameToId.Values)
      && NoDuplicates(c.targetClassIds)
      && (forall n :: n in c.nameToId ==> c.nameToId[n] in c.idToUnifiedLabel && c.idToUnifiedLabel[c.nameToId[n]] == n)
      && (forall cid :: cid in c.idToUnifiedLabel ==>
            c.idToUnifiedLabel[cid] in c.nameToId && c.nameToId[c.idToUnifiedLabel[cid]] == cid)
  {
    var p, targets := IdToName(m), TargetLabels(whitelist);
    var t := NameToId(p, targets);
    assert DistinctIds(p);
    forall n1, n2 | n1 in t.ids && n2 in t.ids && n1 != n2 ensures t.ids[n1] != t.ids[n2] {
      NameToIdInjective(p, targets, n1, n2);
    }
    forall j, n | FirstHit(p, targets, j, n) ensures n in t.ids && t.ids[n] == p[j].0 {
      NameToIdFirstWins(p, targets, j, n);
    }
    forall n | n in t.ids ensures exists j :: FirstHit(p, targets, j, n) {
      NameToIdKeys(p, targets, n);
      var j :| 0 <= j < |p| && Hit(p[j].1, targets) == Some(n);
      while !FirstHit(p, targets, j, n)
        invariant 0 <= j < |p| && Hit(p[j].1, targets) == Some(n)
        decreases j
      {
        var k :| 0 <= k < j && Hit(p[k].1, targets) == Some(n);
        j := k;
      }
    }
    TargetIdsAreValues(t.ids, t.order);
    InvertIsInverse(t.ids, t.order);
  }

  /** On success, the id stored for a unified name maps back to that name. */
  lemma InverseAt(m: ModelNames, whitelist: Option<seq<string>>, n: string)
    requires m.NameDict? ==> DistinctIds(m.entries)
    requires ClassMappingOf(m, whitelist).Success?
    requires n in ClassMappingOf(m, whitelist).value.nameToId
    ensures var c := ClassMappingOf(m, whitelist).value;
      c.nameToId[n] in c.idToUnifiedLabel && c.idToUnifiedLabel[c.nameToId[n]] == n
  {
    MappingCorrect(m, whitelist);
  }

  /** A name of lower-case letters matches exactly when it is a target label itself. */
  lemma HitOfLowerCase(name: string, targets: seq<string>)
    requires forall i :: 0 <= i < |name| ==> 'a' <= name[i] <= 'z'
    ensures Hit(name, targets) == if name in targets then Some(Unify(name)) else None
  {
    LowerOfLowerCase(name);
  }

  /** A model with classes person, car, motorbike and dog under the ids 0 to 3. */
  predicate IsFourClassModel(m: ModelNames) {
    m == NameDict([(0, "person"), (1, "car"), (2, "motorbike"), (3, "dog")])
  }

  /** Which classes of the four-class model match the default labels: car (id 1) and motorbike (id 2). */
  lemma FourClassHit(m: ModelNames, j: int)
    requires IsFourClassModel(m) && 0 <= j < |IdToName(m)|
    ensures var p, targets := IdToName(m), TargetLabels(None);
      && p[j].0 == j
      && Hit(p[j].1, targets) == if j == 1 then Some("car") else if j == 2 then Some("motorcycle") else None
  {
    HitOfLowerCase(IdToName(m)[j].1, TargetLabels(None));
  }

  /** The name table of the four-class model holds car under 1 and motorcycle under 2. */
  lemma FourClassId(m: ModelNames, j: int, n: string)
    requires IsFourClassModel(m)
    requires (j == 1 && n == "car") || (j == 2 && n == "motorcycle")
    ensures var ids := NameToId(IdToName(m), TargetLabels(None)).ids;
      n in ids && ids[n] == j
  {
    var p, targets := IdToName(m), TargetLabels(None);
    forall k | 0 <= k < j ensures Hit(p[k].1, targets) != Some(n) {
      FourClassHit(m, k);
    }
    FourClassHit(m, j);
    assert FirstHit(p, targets, j, n);
    NameToIdFirstWins(p, targets, j, n);
  }

  /** The name table of the four-class model has no key besides car and motorcycle. */
  lemma FourClassKeys(m: ModelNames)
    requires IsFourClassModel(m)
    ensures var ids := NameToId(IdToName(m), TargetLabels(None)).ids;
      forall n :: n in ids ==> n == "car" || n == "motorcycle"
  {
    var p, targets := IdToName(m), TargetLabels(None);
    var ids := NameToId(p, targets).ids;
    forall n | n in ids ensures n == "car" || n == "motorcycle" {
      NameToIdKeys(p, targets, n);
      var j :| 0 <= j < |p| && Hit(p[j].1, targets) == Some(n);
      FourClassHit(m, j);
    }
  }

  lemma FourClassDistinct(m: ModelNames)
    requires IsFourClassModel(m)
    ensures m.NameDict? && DistinctIds(m.entries)
  {
    forall j | 0 <= j < |m.entries| ensures m.entries[j].0 == j {
      FourClassHit(m, j);
    }
  }

  /**
   * Without a whitelist, the four-class model maps car to 1 and motorbike,
   * unified as motorcycle, to 2, and has no other key.
   */
  lemma MotorbikeScenario(m: ModelNames)
    requires IsFourClassModel(m)
    ensures var r := ClassMappingOf(m, None);
      && r.Success?
      && (forall n :: n in r.value.nameToId <==> n == "car" || n == "motorcycle")
      && 1 in r.value.idToUnifiedLabel && r.value.idToUnifiedLabel[1] == "car"
      && 2 in r.value.idToUnifiedLabel && r.value.idToUnifiedLabel[2] == "motorcycle"
  {
    var p := IdToName(m);
    FourClassHit(m, 1);
    FailsIffNoMatch(m, None);
    var c := ClassMappingOf(m, None).value;
    assert c.nameToId == NameToId(p, TargetLabels(None)).ids;
    FourClassId(m, 1, "car");
    FourClassId(m, 2, "motorcycle");
    FourClassKeys(m);
    FourClassDistinct(m);
    InverseAt(m, None, "car");
    InverseAt(m, None, "motorcycle");
  }

  // ---------------------------------------------------------------------
  // The constructor's mapping code
  // ---------------------------------------------------------------------

  /**
   * The mapping part of the detector's constructor: choose the target labels,
   * fill `name_to_id` entry by entry, derive the id list and the inverse map,
   * and fail when no class matched.
   */
  method BuildClassMapping(names: ModelNames, whitelist: Option<seq<string>>)
    returns (res: Result<ClassMapping, MappingError>)
    requires names.NameDict? ==> DistinctIds(names.entries)
    ensures res == ClassMappingOf(names, whitelist)
    ensures res.Failure? <==>
      forall j :: 0 <= j < |IdToName(names)| ==> Hit(IdToName(names)[j].1, TargetLabels(whitelist)).None?
    ensures res.Success? ==> forall n :: n in res.value.nameToId ==>
      && res.value.nameToId[n] in res.value.idToUnifiedLabel
      && res.value.idToUnifiedLabel[res.value.nameToId[n]] == n
  {
    var idToName := IdToName(names);
    var targets := DefaultTargets;
    if whitelist.Some? && |whitelist.value| > 0 {
      targets := LowerAll(whitelist.value);
    }
    var nameToId: map<string, int> := map[];
    var order: seq<string> := [];
    for i := 0 to |idToName|
      invariant NameTable(nameToId, order) == NameToId(idToName[..i], targets)
    {
      assert idToName[..i + 1][..i] == idToName[..i];
      var (cid, cname) := idToName[i];
      var cnameL := Lower(cname);
      if cnameL in targets {
        if cnameL == "motorbike" {
          cnameL := "motorcycle";
        }
        if cnameL !in nameToId {
          nameToId := nameToId[cnameL := cid];
          order := order + [cnameL];
        }
      }
    }
    assert idToName[..|idToName|] == idToName;
    var targetClassIds := ValuesInOrder(nameToId, order);
    var idToUnifiedLabel := Invert(nameToId, order);
    if |targetClassIds| == 0 {
      res := Failure(NoTargetClasses);
    } else {
      res := Success(ClassMapping(nameToId, order, targetClassIds, idToUnifiedLabel));
    }
    assert res == ClassMappingOf(names, whitelist);
    FailsIffNoMatch(names, whitelist);
    if res.Success? {
      MappingCorrect(names, whitelist);
    }
  }
}
