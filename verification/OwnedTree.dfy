/** Every process a run started (scripts/interview-run-budget.py, 860-911). */
module OwnedTree {

  /** One process: whether it is a zombie, its parent, its group and its start time. */
  datatype Process = Process(zombie: bool, ppid: int, pgid: int, start: int)

  type Table = map<int, Process>

  /** What decides membership besides the table. */
  datatype Rules = Rules(rootPid: int, rootPgid: int, adoptOrphans: bool, me: int)

  /** Owned processes that are still the same process. */
  function Survivors(owned: map<int, int>, table: Table): map<int, int> {
    map pid | pid in owned && pid in table && table[pid].start == owned[pid] :: owned[pid]
  }

  /** ... and the root, the first time it is seen. */
  function Base(r: Rules, owned: map<int, int>, enrolled: bool, table: Table): map<int, int> {
    var kept := Survivors(owned, table);
    if r.rootPid in table && !enrolled then kept[r.rootPid := table[r.rootPid].start] else kept
  }

  /** The parent, group and adoption rules, for a set of owned processes. */
  predicate Joins(r: Rules, table: Table, s: set<int>, pid: int)
    requires pid in table
  {
    && pid != r.me
    && (table[pid].ppid in s || table[pid].pgid == r.rootPgid || (r.adoptOrphans && table[pid].ppid == r.me))
  }

  ghost predicate Closed(r: Rules, table: Table, s: set<int>) {
    forall pid <- table :: Joins(r, table, s, pid) ==> pid in s
  }

  ghost predicate WithinEveryClosed(r: Rules, table: Table, base: set<int>, s: set<int>) {
    forall t: set<int> :: base <= t && Closed(r, table, t) ==> s <= t
  }

  /** The smallest set that holds the base and is closed under the rules. */
  ghost predicate IsLeast(r: Rules, table: Table, base: set<int>, s: set<int>) {
    base <= s && Closed(r, table, s) && WithinEveryClosed(r, table, base, s)
  }

  /** There is only one such set, so the order the table is walked in does not matter. */
  lemma LeastIsUnique(r: Rules, table: Table, base: set<int>, s: set<int>, t: set<int>)
    requires IsLeast(r, table, base, s) && IsLeast(r, table, base, t)
    ensures s == t
  {
    assert s <= t && t <= s;
  }

  /** A process that no rule brings in and that was not owned to begin with is not owned: a recycled
      PID is a stranger. */
  lemma StrangerIsNotOwned(r: Rules, owned: map<int, int>, enrolled: bool, table: Table, s: set<int>, pid: int)
    requires IsLeast(r, table, Base(r, owned, enrolled, table).Keys, s)
    requires pid in table && !Joins(r, table, s, pid)
    requires pid in owned ==> owned[pid] != table[pid].start
    requires pid == r.rootPid ==> enrolled
    ensures pid !in s
  {
    var base := Base(r, owned, enrolled, table).Keys;
    var t := s - {pid};
    assert base <= t;
    forall q <- table
      ensures Joins(r, table, t, q) ==> q in t
    {
      assert Joins(r, table, t, q) ==> Joins(r, table, s, q);
    }
    assert Closed(r, table, t);
    assert s <= t;
  }

  // Who is owned, process by process.

  /** Owned whatever its parent is: a survivor, the root at its first sight, a member of the root's group,
      or an orphan adopted by the launcher. */
  ghost predicate Seeds(r: Rules, owned: map<int, int>, enrolled: bool, table: Table, pid: int) {
    && pid in table
    && (|| (pid in owned && owned[pid] == table[pid].start)
        || (pid == r.rootPid && !enrolled)
        || (pid != r.me && table[pid].pgid == r.rootPgid)
        || (pid != r.me && r.adoptOrphans && table[pid].ppid == r.me))
  }

  /** A line of descent: each process is the child of the one before it, and none is the launcher. */
  ghost predicate Line(r: Rules, owned: map<int, int>, enrolled: bool, table: Table, line: seq<int>) {
    && line != [] && Seeds(r, owned, enrolled, table, line[0])
    && forall k :: 1 <= k < |line| ==> line[k] in table && line[k] != r.me && table[line[k]].ppid == line[k - 1]
  }

  ghost predicate LineTo(r: Rules, owned: map<int, int>, enrolled: bool, table: Table, line: seq<int>, pid: int) {
    Line(r, owned, enrolled, table, line) && line[|line| - 1] == pid
  }

  ghost predicate Descends(r: Rules, owned: map<int, int>, enrolled: bool, table: Table, pid: int) {
    exists line: seq<int> :: LineTo(r, owned, enrolled, table, line, pid)
  }

  lemma {:induction false} LineIsOwned(r: Rules, owned: map<int, int>, enrolled: bool, table: Table, s: set<int>, line: seq<int>)
    requires IsLeast(r, table, Base(r, owned, enrolled, table).Keys, s) && Line(r, owned, enrolled, table, line)
    ensures line[|line| - 1] in s
    decreases |line|
  {
    var pid := line[|line| - 1];
    if |line| > 1 {
      var front := line[..|line| - 1];
      LineIsOwned(r, owned, enrolled, table, s, front);
      assert front[|front| - 1] == table[pid].ppid;
      assert Joins(r, table, s, pid);
    } else if pid !in Base(r, owned, enrolled, table) {
      assert Joins(r, table, s, pid);
    }
  }

  lemma SeedDescends(r: Rules, owned: map<int, int>, enrolled: bool, table: Table, pid: int)
    requires Seeds(r, owned, enrolled, table, pid)
    ensures Descends(r, owned, enrolled, table, pid)
  {
    assert LineTo(r, owned, enrolled, table, [pid], pid);
  }

  lemma ChildDescends(r: Rules, owned: map<int, int>, enrolled: bool, table: Table, pid: int)
    requires pid in table && pid != r.me && Descends(r, owned, enrolled, table, table[pid].ppid)
    ensures Descends(r, owned, enrolled, table, pid)
  {
    var line: seq<int> :| LineTo(r, owned, enrolled, table, line, table[pid].ppid);
    assert LineTo(r, owned, enrolled, table, line + [pid], pid);
  }

  /** The owned set is exactly the seeds and everything that descends from them. */
  lemma OwnedIsTheFamily(r: Rules, owned: map<int, int>, enrolled: bool, table: Table, s: set<int>, pid: int)
    requires IsLeast(r, table, Base(r, owned, enrolled, table).Keys, s)
    ensures pid in s <==> Descends(r, owned, enrolled, table, pid)
  {
    if Descends(r, owned, enrolled, table, pid) {
      var line: seq<int> :| LineTo(r, owned, enrolled, table, line, pid);
      LineIsOwned(r, owned, enrolled, table, s, line);
    }
    var family := set p | p in table && Descends(r, owned, enrolled, table, p);
    FamilyIsClosed(r, owned, enrolled, table, family);
    assert s <= family;
  }

  lemma FamilyIsClosed(r: Rules, owned: map<int, int>, enrolled: bool, table: Table, family: set<int>)
    requires forall p :: p in family <==> p in table && Descends(r, owned, enrolled, table, p)
    ensures Base(r, owned, enrolled, table).Keys <= family && Closed(r, table, family)
  {
    forall p | p in Base(r, owned, enrolled, table)
      ensures p in family
    {
      SeedDescends(r, owned, enrolled, table, p);
    }
    forall p | p in table && Joins(r, table, family, p)
      ensures p in family
    {
      if table[p].ppid in family {
        ChildDescends(r, owned, enrolled, table, p);
      } else {
        SeedDescends(r, owned, enrolled, table, p);
      }
    }
  }

  /** Every key of the table, in some order. */
  ghost predicate Lists(order: seq<int>, table: Table) {
    forall pid :: pid in order <==> pid in table
  }

  class OwnedTree {
    const rules: Rules
    var owned: map<int, int>
    var rootEnrolled: bool

    constructor (rules: Rules)
      ensures this.rules == rules && owned == map[] && !rootEnrolled
    {
      this.rules := rules;
      owned := map[];
      rootEnrolled := false;
    }

    /** Every owned process is one of the table's, by start time. */
    ghost predicate Current(table: Table)
      reads this
    {
      forall pid <- owned :: pid in table && table[pid].start == owned[pid]
    }

    /** One pass over the table. */
    method Sweep(table: Table, order: seq<int>, ghost base: set<int>) returns (changed: bool)
      requires Lists(order, table) && Current(table)
      requires base <= owned.Keys && WithinEveryClosed(rules, table, base, owned.Keys)
      modifies this`owned
      ensures Current(table) && old(owned.Keys) <= owned.Keys
      ensures WithinEveryClosed(rules, table, base, owned.Keys)
      ensures changed ==> old(owned.Keys) < owned.Keys
      ensures !changed ==> owned == old(owned) && Closed(rules, table, owned.Keys)
    {
      changed := false;
      for k := 0 to |order|
        invariant Current(table) && old(owned.Keys) <= owned.Keys
        invariant WithinEveryClosed(rules, table, base, owned.Keys)
        invariant changed ==> old(owned.Keys) < owned.Keys
        invariant !changed ==> owned == old(owned)
        invariant !changed ==> forall j :: 0 <= j < k && order[j] in table && Joins(rules, table, owned.Keys, order[j]) ==> order[j] in owned
      {
        var pid := order[k];
        assert pid in table;
        var process := table[pid];
        if pid !in owned && pid != rules.me {
          if (process.ppid in owned && table[process.ppid].start == owned[process.ppid])
             || process.pgid == rules.rootPgid
             || (rules.adoptOrphans && process.ppid == rules.me)
          {
            JoinIsForced(rules, table, base, owned.Keys, pid);
            assert owned[pid := process.start].Keys == owned.Keys + {pid};
            owned := owned[pid := process.start];
            changed := true;
          }
        }
      }
    }

    /** `refresh`: the owned set becomes the least one that holds the survivors and the root on its
        first sight and is closed under the rules, each with its current start time. */
    method Refresh(table: Table, order: seq<int>)
      requires Lists(order, table)
      modifies this
      ensures IsLeast(rules, table, Base(rules, old(owned), old(rootEnrolled), table).Keys, owned.Keys)
      ensures forall pid :: pid in owned <==> Descends(rules, old(owned), old(rootEnrolled), table, pid)
      ensures Current(table)
      ensures rootEnrolled == (old(rootEnrolled) || rules.rootPid in table)
    {
      owned := Survivors(owned, table);
      if rules.rootPid in table && !rootEnrolled {
        owned := owned[rules.rootPid := table[rules.rootPid].start];
        rootEnrolled := true;
      }
      ghost var base := owned.Keys;
      assert owned == Base(rules, old(owned), old(rootEnrolled), table);
      var changed := true;
      while changed
        invariant rootEnrolled == (old(rootEnrolled) || rules.rootPid in table)
        invariant Current(table) && base <= owned.Keys && WithinEveryClosed(rules, table, base, owned.Keys)
        invariant !changed ==> Closed(rules, table, owned.Keys)
        decreases table.Keys - owned.Keys, changed
      {
        ghost var before := owned.Keys;
        changed := Sweep(table, order, base);
        if changed {
          ShrinksRest(table, before, owned.Keys);
        }
      }
      forall pid
        ensures pid in owned <==> Descends(rules, old(owned), old(rootEnrolled), table, pid)
      {
        OwnedIsTheFamily(rules, old(owned), old(rootEnrolled), table, owned.Keys, pid);
      }
    }

    /** `alive`: the owned processes that still run, in ascending order. `walk` is the order of the
        dictionary. */
    method Alive(table: Table, walk: seq<int>) returns (alive: seq<int>)
      requires Distinct(walk) && forall pid :: pid in walk <==> pid in owned
      ensures Ascending(alive)
      ensures forall pid :: pid in alive <==>
                pid in owned && pid in table && table[pid].start == owned[pid] && !table[pid].zombie
    {
      alive := [];
      for k := 0 to |walk|
        invariant Ascending(alive)
        invariant forall pid :: pid in alive <==> pid in walk[..k] && Runs(owned, table, pid)
      {
        var pid := walk[k];
        assert pid !in walk[..k];
        if pid in table && table[pid].start == owned[pid] && !table[pid].zombie {
          InsertKeepsOrder(alive, pid);
          alive := Insert(alive, pid);
        }
        assert walk[..k + 1] == walk[..k] + [pid];
      }
      assert walk[..|walk|] == walk;
    }
  }

  predicate Runs(owned: map<int, int>, table: Table, pid: int) {
    pid in owned && pid in table && table[pid].start == owned[pid] && !table[pid].zombie
  }

  ghost predicate Distinct(s: seq<int>) {
    forall i, j :: 0 <= i < j < |s| ==> s[i] != s[j]
  }

  ghost predicate Ascending(s: seq<int>) {
    forall i, j :: 0 <= i < j < |s| ==> s[i] < s[j]
  }

  function Insert(s: seq<int>, x: int): seq<int> {
    if s == [] || x < s[0] then [x] + s else [s[0]] + Insert(s[1..], x)
  }

  lemma {:induction false} InsertKeepsOrder(s: seq<int>, x: int)
    requires Ascending(s) && x !in s
    ensures Ascending(Insert(s, x)) && forall y :: y in Insert(s, x) <==> y == x || y in s
    decreases |s|
  {
    if s != [] && x > s[0] {
      var rest := s[1..];
      assert s == [s[0]] + rest;
      InsertKeepsOrder(rest, x);
      forall j | 0 <= j < |Insert(rest, x)|
        ensures s[0] < Insert(rest, x)[j]
      {
        assert Insert(rest, x)[j] in Insert(rest, x);
      }
    }
  }

  lemma ShrinksRest(table: Table, before: set<int>, after: set<int>)
    requires before < after && after <= table.Keys
    ensures table.Keys - after < table.Keys - before
  {
    var all := table.Keys;
    assert all - (all - before) == before && all - (all - after) == after;
  }

  lemma JoinIsForced(r: Rules, table: Table, base: set<int>, s: set<int>, pid: int)
    requires WithinEveryClosed(r, table, base, s) && pid in table && Joins(r, table, s, pid)
    ensures WithinEveryClosed(r, table, base, s + {pid})
  {
    forall t: set<int> | base <= t && Closed(r, table, t)
      ensures s + {pid} <= t
    {
      assert s <= t;
      assert Joins(r, table, t, pid);
    }
  }
}
