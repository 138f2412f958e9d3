/**
 * The statistics a `Scorer` gathers over a set of test programs: how often
 * each opcode occurs in total, the complexity level of each test, how many
 * tests fall in each level, and how many opcodes, overall and per level,
 * the tests cover.
 *
 * Each test is given by its opcode counts (opcode name to number of
 * occurrences); the extraction of those counts from program text is not
 * part of this model. A dictionary lookup of a missing key, which raises
 * `KeyError` in the source, makes the operation return `None`.
 */
module VmScorer {

  import opened Common

  /** Opcode name to number of occurrences in one test. */
  type OpCounts = map<string, nat>

  // ---------------------------------------------------------------------
  // Sums and counts over finite maps
  // ---------------------------------------------------------------------

  /** The sum of a map's values. */
  ghost function MapSum<K>(m: map<K, nat>): nat
    decreases m.Keys
  {
    if m == map[] then 0
    else
      var k :| k in m;
      m[k] + MapSum(m - {k})
  }

  /** Any entry can be taken out of the sum first. */
  lemma {:induction false} MapSumRemove<K>(m: map<K, nat>, k: K)
    requires k in m
    ensures MapSum(m) == m[k] + MapSum(m - {k})
    decreases m.Keys
  {
    var j :| j in m && MapSum(m) == m[j] + MapSum(m - {j});
    if j != k {
      MapSumRemove(m - {j}, k);
      MapSumRemove(m - {k}, j);
      assert m - {j} - {k} == m - {k} - {j};
    }
  }

  /** Changing one existing entry changes the sum by the difference. */
  lemma MapSumUpdate<K>(m: map<K, nat>, k: K, v: nat)
    requires k in m
    ensures MapSum(m[k := v]) + m[k] == MapSum(m) + v
  {
    MapSumRemove(m, k);
    MapSumRemove(m[k := v], k);
    assert m[k := v] - {k} == m - {k};
  }

  /** Adding a new entry adds its value to the sum. */
  lemma MapSumAdd<K>(m: map<K, nat>, k: K, v: nat)
    requires k !in m
    ensures MapSum(m[k := v]) == MapSum(m) + v
  {
    MapSumRemove(m[k := v], k);
    assert m[k := v] - {k} == m;
  }

  /** A map of zeros sums to zero. */
  lemma {:induction false} MapSumZero<K>(m: map<K, nat>)
    requires forall k :: k in m ==> m[k] == 0
    ensures MapSum(m) == 0
    decreases m.Keys
  {
    if m != map[] {
      var k :| k in m;
      MapSumRemove(m, k);
      MapSumZero(m - {k});
    }
  }

  /** The keys of `m` whose value is `v`. */
  function KeysWith(m: map<string, int>, v: int): set<string> {
    set k | k in m && m[k] == v
  }

  /** How many keys map to each value, as `Counter(m.values())` counts them. */
  function Tally(m: map<string, int>): (r: map<int, nat>)
    ensures r.Keys == m.Values
    ensures forall v :: v in r ==> r[v] >= 1
  {
    KeysWithNonEmpty(m);
    map v | v in m.Values :: |KeysWith(m, v)|
  }

  /** Every value of `m` is the value of some key. */
  lemma KeysWithNonEmpty(m: map<string, int>)
    ensures forall v :: v in m.Values ==> |KeysWith(m, v)| >= 1
  {
    forall v | v in m.Values ensures |KeysWith(m, v)| >= 1 {
      var k :| k in m && m[k] == v;
      assert k in KeysWith(m, v);
    }
  }

  /** Taking one key out of `m` lowers the tally of its value by one. */
  lemma TallyRemove(m: map<string, int>, k: string)
    requires k in m
    ensures var v := m[k];
      && (v in Tally(m - {k}) ==> Tally(m) == Tally(m - {k})[v := Tally(m - {k})[v] + 1])
      && (v !in Tally(m - {k}) ==> Tally(m) == Tally(m - {k})[v := 1])
  {
    var v := m[k];
    var m' := m - {k};
    assert KeysWith(m, v) == KeysWith(m', v) + {k};
    forall u | u != v && u in m.Values ensures u in m'.Values && KeysWith(m, u) == KeysWith(m', u) {
      var j :| j in m && m[j] == u;
      assert j in m';
    }
    if v !in m'.Values {
      assert KeysWith(m', v) == {};
    }
  }

  /** Taking one key out of `m` lowers the sum of the tallies by one. */
  lemma TallySumStep(m: map<string, int>, k: string)
    requires k in m
    ensures MapSum(Tally(m)) == MapSum(Tally(m - {k})) + 1
  {
    var m' := m - {k};
    var v := m[k];
    TallyRemove(m, k);
    if v in Tally(m') {
      MapSumUpdate(Tally(m'), v, Tally(m')[v] + 1);
    } else {
      MapSumAdd(Tally(m'), v, 1);
    }
  }

  /** The tallies add up to the number of keys. */
  lemma {:induction false} TallySum(m: map<string, int>)
    ensures MapSum(Tally(m)) == |m|
    decreases m.Keys
  {
    if m == map[] {
      assert Tally(m) == map[];
    } else {
      var k :| k in m;
      TallySum(m - {k});
      TallySumStep(m, k);
      assert m.Keys == (m - {k}).Keys + {k};
    }
  }

  /** How often opcode `op` occurs in one test. */
  function Count(t: OpCounts, op: string): nat {
    if op in t then t[op] else 0
  }

  /** How often opcode `op` occurs over all `tests`. */
  function Total(tests: seq<OpCounts>, op: string): nat {
    if tests == [] then 0 else Total(tests[..|tests| - 1], op) + Count(tests[|tests| - 1], op)
  }

  /** An opcode has a nonzero total exactly when some test uses it a nonzero number of times. */
  lemma {:induction false} TotalPositive(tests: seq<OpCounts>, op: string)
    ensures Total(tests, op) > 0 <==> exists i :: 0 <= i < |tests| && Count(tests[i], op) > 0
  {
    if tests != [] {
      var init := tests[..|tests| - 1];
      TotalPositive(init, op);
      if Total(init, op) > 0 {
        var i :| 0 <= i < |init| && Count(init[i], op) > 0;
        assert tests[i] == init[i];
      }
      if Total(tests, op) == 0 {
        forall i | 0 <= i < |tests| ensures Count(tests[i], op) == 0 {
          if i < |init| {
            assert tests[i] == init[i];
          }
        }
      }
    }
  }

  /** Every opcode the tests use has a level. */
  predicate Known(levels: map<string, int>, tests: seq<OpCounts>) {
    forall i, op :: 0 <= i < |tests| && op in tests[i] ==> op in levels
  }

  /** The level of a test using the opcodes `ops`: the highest of their levels, and at least 1. */
  ghost function MaxLevel(levels: map<string, int>, ops: set<string>): (r: int)
    requires ops <= levels.Keys
    ensures r >= 1
    ensures forall op :: op in ops ==> levels[op] <= r
    ensures r == 1 || exists op :: op in ops && levels[op] == r
    decreases ops
  {
    if ops == {} then 1
    else
      var op :| op in ops;
      var rest := MaxLevel(levels, ops - {op});
      if levels[op] > rest then levels[op] else rest
  }

  /** The level is the only value with the properties of `MaxLevel`. */
  lemma MaxLevelUnique(levels: map<string, int>, ops: set<string>, r: int)
    requires ops <= levels.Keys
    requires r >= 1 && forall op :: op in ops ==> levels[op] <= r
    requires r == 1 || exists op :: op in ops && levels[op] == r
    ensures r == MaxLevel(levels, ops)
  {
    var m := MaxLevel(levels, ops);
    if r != 1 {
      var op :| op in ops && levels[op] == r;
      assert r <= m;
    }
    if m != 1 {
      var op :| op in ops && levels[op] == m;
      assert m <= r;
    }
  }

  /** A test using more opcodes has at least the same level. */
  lemma MaxLevelMonotone(levels: map<string, int>, ops: set<string>, more: set<string>)
    requires ops <= more <= levels.Keys
    ensures MaxLevel(levels, ops) <= MaxLevel(levels, more)
  {
    var m := MaxLevel(levels, ops);
    if m != 1 {
      var op :| op in ops && levels[op] == m;
      assert op in more;
    }
  }

  /** The opcodes among `ops` whose total is nonzero. */
  function Used(total: map<string, nat>, ops: set<string>): set<string> {
    set op | op in ops && op in total && total[op] > 0
  }

  /** The opcodes among `ops` whose total is nonzero and whose level is `l`. */
  function UsedAt(levels: map<string, int>, total: map<string, nat>, l: int, ops: set<string>): set<string> {
    set op | op in Used(total, ops) && op in levels && levels[op] == l
  }

  /** Examining one more opcode adds it to the used ones, and to those of its level, when its total is nonzero. */
  lemma UsedAdd(levels: map<string, int>, total: map<string, nat>, ops: set<string>, op: string)
    requires op !in ops && op in levels && op in total
    ensures |Used(total, ops + {op})| == |Used(total, ops)| + (if total[op] > 0 then 1 else 0)
    ensures forall l :: (|UsedAt(levels, total, l, ops + {op})| ==
      |UsedAt(levels, total, l, ops)| + (if total[op] > 0 && levels[op] == l then 1 else 0))
  {
    if total[op] > 0 {
      assert Used(total, ops + {op}) == Used(total, ops) + {op};
      forall l ensures |UsedAt(levels, total, l, ops + {op})| ==
        |UsedAt(levels, total, l, ops)| + (if levels[op] == l then 1 else 0)
      {
        if levels[op] == l {
          assert UsedAt(levels, total, l, ops + {op}) == UsedAt(levels, total, l, ops) + {op};
        } else {
          assert UsedAt(levels, total, l, ops + {op}) == UsedAt(levels, total, l, ops);
        }
      }
    } else {
      assert Used(total, ops + {op}) == Used(total, ops);
      forall l ensures UsedAt(levels, total, l, ops + {op}) == UsedAt(levels, total, l, ops) {
      }
    }
  }

  // ---------------------------------------------------------------------
  // The scorer
  // ---------------------------------------------------------------------

  class Scorer {
    /** The levels that carry a score, with their scores. */
    const levelScores: map<int, int>
    /** The level of each opcode. */
    const operationLevels: map<string, int>
    /** The opcode counts of each test, in the order the tests were given. */
    const stat: seq<OpCounts>

    constructor(tests: seq<OpCounts>, levelScores: map<int, int>, operationLevels: map<string, int>)
      ensures this.levelScores == levelScores
      ensures this.operationLevels == operationLevels
      ensures this.stat == tests
    {
      this.levelScores := levelScores;
      this.operationLevels := operationLevels;
      this.stat := tests;
    }

    /** How many opcodes have each level, as `Counter` counts the table's values. */
    function LevelOperationsCount(): (r: map<int, nat>)
      ensures r.Keys == operationLevels.Values
      ensures forall l :: l in r ==> r[l] == |set op | op in operationLevels && operationLevels[op] == l|
    {
      Tally(operationLevels)
    }

    /** How many opcodes have a level: the sum of the per-level counts. */
    function OperationsCount(): (r: nat)
      ensures r == MapSum(LevelOperationsCount())
    {
      TallySum(operationLevels);
      |operationLevels|
    }

    /** The total count of each opcode with a level: nonzero exactly when some test uses the opcode. */
    function Totals(): (r: map<string, nat>)
      ensures r.Keys == operationLevels.Keys
      ensures forall op :: op in r ==> (r[op] > 0 <==> exists i :: 0 <= i < |stat| && Count(stat[i], op) > 0)
    {
      assert forall op :: Total(stat, op) > 0 <==> exists i :: 0 <= i < |stat| && Count(stat[i], op) > 0 by {
        forall op ensures Total(stat, op) > 0 <==> exists i :: 0 <= i < |stat| && Count(stat[i], op) > 0 {
          TotalPositive(stat, op);
        }
      }
      map op | op in operationLevels :: Total(stat, op)
    }

    /** The opcodes with a level that some test uses a nonzero number of times. */
    function Covered(): set<string> {
      Used(Totals(), operationLevels.Keys)
    }

    /** The covered opcodes of level `l`. */
    function CoveredAt(l: int): set<string> {
      UsedAt(operationLevels, Totals(), l, operationLevels.Keys)
    }

    /**
     * How many opcodes the tests cover, or `None` when a test uses an
     * opcode without a level (the total statistics fail then).
     */
    function OperationsCoverage(): (r: Option<nat>)
      ensures r.None? <==> !Known(operationLevels, stat)
      ensures r.Some? ==> r.value <= OperationsCount()
      ensures r.Some? ==> (r.value == OperationsCount() <==> forall op :: op in operationLevels ==> Total(stat, op) > 0)
    {
      CoveredSize();
      if Known(operationLevels, stat) then Some(|Covered()|) else None
    }

    /** The covered opcodes are among the opcodes with a level, and are all of them only when each is used. */
    lemma CoveredSize()
      ensures |Covered()| <= OperationsCount()
      ensures |Covered()| == OperationsCount() <==> forall op :: op in operationLevels ==> Total(stat, op) > 0
    {
      var c := Covered();
      assert c <= operationLevels.Keys;
      SubsetSize(c, operationLevels.Keys);
      if forall op :: op in operationLevels ==> Total(stat, op) > 0 {
        assert c == operationLevels.Keys;
      }
    }

    /**
     * The level of a test with opcode counts `operations`, or `None` when
     * one of its opcodes has no level.
     */
    method TestLevel(operations: OpCounts) returns (r: Option<int>)
      ensures r.Some? <==> operations.Keys <= operationLevels.Keys
      ensures r.Some? ==> r.value == MaxLevel(operationLevels, operations.Keys)
    {
      var level := 1;
      var pending := operations.Keys;
      while pending != {}
        invariant pending <= operations.Keys
        invariant operations.Keys - pending <= operationLevels.Keys
        invariant level >= 1
        invariant forall op :: op in operations.Keys - pending ==> operationLevels[op] <= level
        invariant level == 1 || exists op :: op in operations.Keys - pending && operationLevels[op] == level
        decreases pending
      {
        var key :| key in pending;
        if key !in operationLevels {
          return None;
        }
        level := if level >= operationLevels[key] then level else operationLevels[key];
        pending := pending - {key};
      }
      MaxLevelUnique(operationLevels, operations.Keys, level);
      return Some(level);
    }

    /**
     * The total count of each opcode with a level over all tests, or
     * `None` when a test uses an opcode without a level.
     */
    method TotalStats() returns (r: Option<map<string, nat>>)
      ensures r.None? <==> !Known(operationLevels, stat)
      ensures r.Some? ==> r.value.Keys == operationLevels.Keys
      ensures r.Some? ==> forall op :: op in r.value ==> r.value[op] == Total(stat, op)
      ensures r.Some? ==> r.value == Totals()
    {
      var totals: map<string, nat> := map op | op in operationLevels :: 0;
      var i := 0;
      while i < |stat|
        invariant 0 <= i <= |stat|
        invariant forall j, op :: 0 <= j < i && op in stat[j] ==> op in operationLevels
        invariant totals.Keys == operationLevels.Keys
        invariant forall op :: op in totals ==> totals[op] == Total(stat[..i], op)
      {
        var t := stat[i];
        var pending := t.Keys;
        assert stat[..i + 1][..i] == stat[..i];
        while pending != {}
          invariant pending <= t.Keys
          invariant t.Keys - pending <= operationLevels.Keys
          invariant totals.Keys == operationLevels.Keys
          invariant forall op :: op in totals ==>
            totals[op] == Total(stat[..i], op) + (if op !in pending then Count(t, op) else 0)
          decreases pending
        {
          var key :| key in pending;
          if key !in totals {
            assert key in stat[i];
            return None;
          }
          totals := totals[key := totals[key] + t[key]];
          pending := pending - {key};
        }
        i := i + 1;
      }
      assert stat[..i] == stat;
      assert totals == Totals();
      return Some(totals);
    }

    /** Whether a test's level can be computed and carries a score. */
    ghost predicate Scored(t: OpCounts) {
      t.Keys <= operationLevels.Keys && MaxLevel(operationLevels, t.Keys) in levelScores
    }

    /** How many of `tests` have level `l`. */
    ghost function LevelCount(tests: seq<OpCounts>, l: int): nat {
      if tests == [] then 0
      else
        var t := tests[|tests| - 1];
        LevelCount(tests[..|tests| - 1], l) +
          (if t.Keys <= operationLevels.Keys && MaxLevel(operationLevels, t.Keys) == l then 1 else 0)
    }

    /**
     * How many tests have each scored level, or `None` when some test's
     * level cannot be computed or carries no score.
     */
    method LevelsStats() returns (r: Option<map<int, nat>>)
      ensures r.None? <==> exists i :: 0 <= i < |stat| && !Scored(stat[i])
      ensures r.Some? ==> r.value.Keys == levelScores.Keys
      ensures r.Some? ==> forall l :: l in r.value ==> r.value[l] == LevelCount(stat, l)
      ensures r.Some? ==> MapSum(r.value) == |stat|
    {
      var levelStats: map<int, nat> := map l | l in levelScores :: 0;
      MapSumZero(levelStats);
      var i := 0;
      while i < |stat|
        invariant 0 <= i <= |stat|
        invariant forall j :: 0 <= j < i ==> Scored(stat[j])
        invariant levelStats.Keys == levelScores.Keys
        invariant forall l :: l in levelStats ==> levelStats[l] == LevelCount(stat[..i], l)
        invariant MapSum(levelStats) == i
      {
        var level := TestLevel(stat[i]);
        if level.None? || level.value !in levelStats {
          assert !Scored(stat[i]);
          return None;
        }
        assert stat[..i + 1][..i] == stat[..i];
        MapSumUpdate(levelStats, level.value, levelStats[level.value] + 1);
        levelStats := levelStats[level.value := levelStats[level.value] + 1];
        i := i + 1;
      }
      assert stat[..i] == stat;
      return Some(levelStats);
    }

    /**
     * How many covered opcodes each scored level has, or `None` when the
     * total statistics fail or a covered opcode's level carries no score.
     */
    method LevelsCoverage() returns (r: Option<map<int, nat>>)
      ensures r.None? <==>
        || !Known(operationLevels, stat)
        || exists op :: op in Covered() && operationLevels[op] !in levelScores
      ensures r.Some? ==> r.value.Keys == levelScores.Keys
      ensures r.Some? ==> forall l :: l in r.value ==> r.value[l] == |CoveredAt(l)|
      ensures r.Some? ==> OperationsCoverage() == Some(MapSum(r.value))
    {
      var totals := TotalStats();
      if totals.None? {
        return None;
      }
      r := CoverageByLevel(totals.value);
    }

    /** The loop of `LevelsCoverage` over the opcodes, given their totals. */
    method CoverageByLevel(total: map<string, nat>) returns (r: Option<map<int, nat>>)
      requires total.Keys == operationLevels.Keys
      ensures r.None? <==> exists op :: op in Used(total, operationLevels.Keys) && operationLevels[op] !in levelScores
      ensures r.Some? ==> r.value.Keys == levelScores.Keys
      ensures r.Some? ==> forall l :: l in r.value ==>
        r.value[l] == |UsedAt(operationLevels, total, l, operationLevels.Keys)|
      ensures r.Some? ==> MapSum(r.value) == |Used(total, operationLevels.Keys)|
    {
      var levelStats: map<int, nat> := map l | l in levelScores :: 0;
      MapSumZero(levelStats);
      var pending := operationLevels.Keys;
      var done := {};
      while pending != {}
        invariant done + pending == operationLevels.Keys && done !! pending
        invariant levelStats.Keys == levelScores.Keys
        invariant forall op :: op in Used(total, done) ==> operationLevels[op] in levelScores
        invariant forall l :: l in levelStats ==> levelStats[l] == |UsedAt(operationLevels, total, l, done)|
        invariant MapSum(levelStats) == |Used(total, done)|
        decreases pending
      {
        var op :| op in pending;
        var level := operationLevels[op];
        UsedAdd(operationLevels, total, done, op);
        if total[op] > 0 {
          if level !in levelStats {
            assert op in Used(total, operationLevels.Keys);
            return None;
          }
          MapSumUpdate(levelStats, level, levelStats[level] + 1);
          levelStats := levelStats[level := levelStats[level] + 1];
        }
        pending := pending - {op};
        done := done + {op};
      }
      return Some(levelStats);
    }

    /** A level never has more covered opcodes than opcodes. */
    lemma CoverageWithinLevel(l: int)
      ensures |CoveredAt(l)| <= (if l in LevelOperationsCount() then LevelOperationsCount()[l] else 0)
    {
      var c := CoveredAt(l);
      assert c <= KeysWith(operationLevels, l);
      SubsetSize(c, KeysWith(operationLevels, l));
      if l !in operationLevels.Values {
        assert KeysWith(operationLevels, l) == {};
      }
    }
  }

}
