/** The migration that gives artifacts a review identity and one approved version each, and its reversal. */
module ArtifactIdentity {
  import opened Outcome
  import opened Sorting
  import opened TextOrder

  datatype Status = Approved | Superseded | Other(name: string)

  /** `target` is the fact-review target among the options. */
  datatype Row = Row(id: string, package: string, kind: string, version: int, language: Option<string>, status: Status,
                     target: Option<string>, parent: Option<string>, created: int, identity: string)

  predicate Given(s: Option<string>) { s.Some? && s.value != "" }

  /** `_identity`. */
  function IdentityOf(r: Row): Result<string, string> {
    if r.kind == "refined_translation" then
      if Given(r.language) then Success("refined_translation:" + r.language.value)
      else Failure("no refined-translation language")
    else if r.kind == "timeline_fact_review" then
      var target := if Given(r.target) then r.target else r.parent;
      if Given(target) then Success("timeline_fact_review:" + target.value) else Failure("no fact-review target")
    else Success(r.kind)
  }

  /** Primary key. */
  ghost predicate DistinctIds(rows: seq<Row>) {
    forall i, j | 0 <= i < j < |rows| :: rows[i].id != rows[j].id
  }

  type Group = (string, string)

  function GroupOf(r: Row): Group { (r.package, r.identity) }

  /** Version first, then creation time, then identifier. */
  predicate Later(a: Row, b: Row) {
    || a.version > b.version
    || (a.version == b.version && a.created > b.created)
    || (a.version == b.version && a.created == b.created && Before(b.id, a.id))
  }

  lemma {:induction false} LaterTotal(a: Row, b: Row)
    requires a.id != b.id
    ensures Later(a, b) || Later(b, a)
    ensures !(Later(a, b) && Later(b, a))
  {
    BeforeTotal(a.id, b.id);
    if Before(a.id, b.id) && Before(b.id, a.id) {
      BeforeTransitive(a.id, b.id, a.id);
      BeforeIrreflexive(a.id);
    }
  }

  lemma {:induction false} LaterTransitive(a: Row, b: Row, c: Row)
    requires Later(a, b) && Later(b, c)
    ensures Later(a, c)
  {
    if a.version == c.version && a.created == c.created {
      BeforeTransitive(c.id, b.id, a.id);
    }
  }

  // ----- upgrade, as a condition on each row

  ghost predicate Outranked(rows: seq<Row>, r: Row) {
    exists s :: s in rows && s.status.Approved? && GroupOf(s) == GroupOf(r) && Later(s, r)
  }

  /** An approved row stays approved unless a later row of its group is approved too. */
  ghost function Settle(rows: seq<Row>, r: Row): Row {
    if r.status.Approved? && Outranked(rows, r) then r.(status := Superseded) else r
  }

  ghost predicate Identified(rows: seq<Row>, out: seq<Row>) {
    && |out| == |rows|
    && forall i | 0 <= i < |rows| :: IdentityOf(rows[i]).Success? && out[i] == rows[i].(identity := IdentityOf(rows[i]).value)
  }

  /** `out` is the table after the upgrade of `rows`. */
  ghost predicate Upgraded(rows: seq<Row>, out: seq<Row>) {
    exists named :: Identified(rows, named) && |out| == |named| && forall i | 0 <= i < |out| :: out[i] == Settle(named, named[i])
  }

  /** The approved rows of one group, in table order. */
  function Approvals(rows: seq<Row>, g: Group): seq<Row> {
    if rows == [] then []
    else
      var front, last := Approvals(rows[..|rows| - 1], g), rows[|rows| - 1];
      if last.status.Approved? && GroupOf(last) == g then front + [last] else front
  }

  lemma {:induction false} ApprovalsMembers(rows: seq<Row>, g: Group, r: Row)
    ensures r in Approvals(rows, g) <==> r in rows && r.status.Approved? && GroupOf(r) == g
  {
    if rows != [] {
      var n := |rows| - 1;
      ApprovalsMembers(rows[..n], g, r);
      assert rows == rows[..n] + [rows[n]];
    }
  }

  class Artifacts {
    var rows: seq<Row>

    /** First loop: every row gets its identity, or the migration stops with an error. */
    method AssignIdentities() returns (r: Result<seq<Row>, string>)
      modifies this
      ensures r.Success? <==> forall i | 0 <= i < |old(rows)| :: IdentityOf(old(rows)[i]).Success?
      ensures r.Success? ==> Identified(old(rows), rows) && r.value == rows
    {
      var k := 0;
      while k < |rows|
        invariant k <= |rows| == |old(rows)|
        invariant forall i | 0 <= i < k :: IdentityOf(old(rows)[i]).Success? && rows[i] == old(rows)[i].(identity := IdentityOf(old(rows)[i]).value)
        invariant forall i | k <= i < |rows| :: rows[i] == old(rows)[i]
      {
        var identity := IdentityOf(rows[k]);
        if identity.Failure? {
          return Failure(identity.error);
        }
        rows := rows[k := rows[k].(identity := identity.value)];
        k := k + 1;
      }
      return Success(rows);
    }

    /** Third loop: in each group with approved rows, all but the newest become superseded. */
    method SupersedeOlder(approved: map<Group, seq<Row>>, groups: seq<Group>)
      requires DistinctIds(rows)
      requires forall g | g in groups :: g in approved && approved[g] == Approvals(rows, g) != []
      requires forall g | g !in groups :: Approvals(rows, g) == []
      modifies this
      ensures |rows| == |old(rows)| && forall i | 0 <= i < |rows| :: rows[i] == Settle(old(rows), old(rows)[i])
    {
      ghost var named := rows;
      var k := 0;
      while k < |groups|
        invariant k <= |groups| && |rows| == |named|
        invariant SettledIn(named, rows, groups[..k])
      {
        var g := groups[k];
        ApprovalsDistinct(named, g);
        var best := Newest(approved[g]);
        var ids := set x | x in approved[g] && x.id != best.id :: x.id;
        SupersedeStep(named, rows, groups[..k], g, best, ids);
        rows := Supersede(rows, ids);
        assert groups[..k + 1] == groups[..k] + [g];
        k := k + 1;
      }
      assert groups[..k] == groups;
      forall i | 0 <= i < |rows| && GroupOf(named[i]) !in groups
        ensures !named[i].status.Approved?
      {
        ApprovalsMembers(named, GroupOf(named[i]), named[i]);
      }
    }

    /** `upgrade`. */
    method Upgrade() returns (r: Result<seq<Row>, string>)
      requires DistinctIds(rows)
      modifies this
      ensures r.Success? <==> forall i | 0 <= i < |old(rows)| :: IdentityOf(old(rows)[i]).Success?
      ensures r.Success? ==> Upgraded(old(rows), rows) && r.value == rows
    {
      r := AssignIdentities();
      if r.Failure? {
        return;
      }
      ghost var named := rows;
      var approved, groups := CollectApproved(rows);
      SupersedeOlder(approved, groups);
      assert Identified(old(rows), named);
      r := Success(rows);
    }

    /**
      * `downgrade`: all versions move out of the way, then each series is numbered in creation
      * order. `ok` is false when an update violates the constraint that is still in force, which
      * happens exactly when a row would meet another one of its identity at its new version.
      */
    method Downgrade() returns (ok: bool)
      modifies this
      ensures var was := InCreationOrder(old(rows));
              && (NewUnique(was) ==> (ok <==> ShiftSafe(was) && RenumberSafe(was)))
              && (ok ==> Renumbering(was, rows, |was|))
    {
      rows := InCreationOrder(rows);
      ghost var was := rows;
      ok := ShiftAll();
      if !ok {
        return;
      }
      ok := Renumber(was);
    }

    method Renumber(ghost was: seq<Row>) returns (ok: bool)
      requires Renumbering(was, rows, 0)
      modifies this
      ensures ok <==> RenumberSafe(was)
      ensures ok ==> Renumbering(was, rows, |was|)
    {
      var versions: map<Series, int> := map[];
      var k := 0;
      while k < |rows|
        invariant k <= |rows| && Renumbering(was, rows, k)
        invariant Tallied(versions, was[..k]) && forall i | 0 <= i < k :: !RenumberClash(was, i)
      {
        var s := SeriesOf(rows[k]);
        RenumberStep(was, rows, k);
        TallyStep(was, k, versions);
        versions := versions[s := Held(versions, s) + 1];
        if Clashes(rows, k, versions[s]) {
          return false;
        }
        rows := rows[k := rows[k].(version := versions[s])];
        k := k + 1;
      }
      return true;
    }

    /** The update of the whole table, one row after the other. */
    method ShiftAll() returns (ok: bool)
      modifies this
      ensures NewUnique(old(rows)) ==> (ok <==> ShiftSafe(old(rows)))
      ensures ok ==> Renumbering(old(rows), rows, 0)
    {
      var k := 0;
      while k < |rows|
        invariant k <= |rows| && Shifting(old(rows), rows, FirstRows(k))
        invariant NewUnique(old(rows)) ==> forall i | 0 <= i < k :: !ShiftClash(old(rows), i)
      {
        if NewUnique(old(rows)) {
          ShiftClashExactly(old(rows), rows, k);
        }
        if Clashes(rows, k, rows[k].version + Offset) {
          return false;
        }
        rows := rows[k := rows[k].(version := rows[k].version + Offset)];
        k := k + 1;
      }
      return true;
    }
  }

  /** `versions.get(key, 0)`. */
  function Held(versions: map<Series, int>, s: Series): int { if s in versions then versions[s] else 0 }

  predicate Created(a: Row, b: Row) { a.created < b.created || (a.created == b.created && Before(a.id, b.id)) }

  /** The table as the downgrade reads it. */
  function InCreationOrder(rows: seq<Row>): seq<Row> { Sort(rows, Created) }

  /** Rows with distinct identifiers have one creation order. */
  lemma {:induction false} CreationOrderSorted(rows: seq<Row>)
    requires DistinctIds(rows)
    ensures Sorted(InCreationOrder(rows), Created)
  {
    CreatedStrict();
    forall x, y | x in rows && y in rows && x != y
      ensures Created(x, y) || Created(y, x)
    {
      BeforeTotal(x.id, y.id);
    }
    IdsMakeDistinct(rows);
    SortSorted(rows, Created);
  }

  /** The downgrade reads the rows there are, by creation time and then by identifier. */
  lemma {:induction false} CreationOrderExactly(rows: seq<Row>)
    requires DistinctIds(rows)
    ensures var out := InCreationOrder(rows);
            && |out| == |rows| && (forall r :: r in out <==> r in rows)
            && forall i, j | 0 <= i < j < |out| ::
                 out[i].created < out[j].created || (out[i].created == out[j].created && Before(out[i].id, out[j].id))
  {
    var out := InCreationOrder(rows);
    CreationOrderSorted(rows);
    forall i, j | 0 <= i < j < |out|
      ensures Created(out[i], out[j])
    {
      SortedAt(out, Created, i, j);
    }
  }

  lemma {:induction false} CreatedStrict()
    ensures Strict(Created)
  {
    forall x: Row
      ensures !Created(x, x)
    {
      BeforeIrreflexive(x.id);
    }
    forall x: Row, y: Row, z: Row | Created(x, y) && Created(y, z)
      ensures Created(x, z)
    {
      if x.created == y.created && y.created == z.created {
        BeforeTransitive(x.id, y.id, z.id);
      }
    }
  }

  lemma {:induction false} IdsMakeDistinct(rows: seq<Row>)
    requires DistinctIds(rows)
    ensures Distinct(rows)
  {
    if rows != [] {
      assert forall i | 0 <= i < |rows[1..]| :: rows[1..][i] == rows[i + 1];
      IdsMakeDistinct(rows[1..]);
    }
  }

  /** Second loop: the approved rows by group, with the groups in the order they were met. */
  method CollectApproved(rows: seq<Row>) returns (approved: map<Group, seq<Row>>, groups: seq<Group>)
    ensures forall g | g in groups :: g in approved && approved[g] == Approvals(rows, g) != []
    ensures forall g | g !in groups :: Approvals(rows, g) == []
  {
    approved, groups := map[], [];
    var k := 0;
    while k < |rows|
      invariant k <= |rows|
      invariant forall g | g in groups :: g in approved && approved[g] == Approvals(rows[..k], g) != []
      invariant forall g | g !in groups :: g !in approved && Approvals(rows[..k], g) == []
    {
      var r := rows[k];
      assert rows[..k + 1][..k] == rows[..k];
      if r.status.Approved? {
        var g := GroupOf(r);
        if g in approved {
          approved := approved[g := approved[g] + [r]];
        } else {
          approved, groups := approved[g := [r]], groups + [g];
        }
      }
      k := k + 1;
    }
    assert rows[..k] == rows;
  }

  /** The maximum that the third loop takes in each group. */
  method Newest(rows: seq<Row>) returns (best: Row)
    requires rows != [] && DistinctIds(rows)
    ensures best in rows && forall r | r in rows :: r == best || Later(best, r)
  {
    best := rows[0];
    var k := 1;
    while k < |rows|
      invariant 1 <= k <= |rows| && best in rows[..k]
      invariant forall i | 0 <= i < k :: rows[i] == best || Later(best, rows[i])
    {
      if Later(rows[k], best) {
        forall i | 0 <= i < k
          ensures Later(rows[k], rows[i])
        {
          if rows[i] != best {
            LaterTransitive(rows[k], best, rows[i]);
          }
        }
        best := rows[k];
      } else {
        LaterTotal(rows[k], best);
      }
      k := k + 1;
    }
  }

  lemma {:induction false} ApprovalsDistinct(rows: seq<Row>, g: Group)
    requires DistinctIds(rows)
    ensures DistinctIds(Approvals(rows, g))
  {
    if rows != [] {
      var n := |rows| - 1;
      var front := Approvals(rows[..n], g);
      ApprovalsDistinct(rows[..n], g);
      forall i | 0 <= i < |front|
        ensures front[i].id != rows[n].id
      {
        ApprovalsMembers(rows[..n], g, front[i]);
      }
    }
  }

  /** The rows with one of the given identifiers become superseded. */
  function Supersede(rows: seq<Row>, ids: set<string>): (out: seq<Row>)
    ensures |out| == |rows|
    ensures forall i | 0 <= i < |rows| :: out[i] == if rows[i].id in ids then rows[i].(status := Superseded) else rows[i]
  {
    if rows == [] then []
    else
      var last := rows[|rows| - 1];
      Supersede(rows[..|rows| - 1], ids) + [if last.id in ids then last.(status := Superseded) else last]
  }

  /** Which rows of group `g` the update statement of the third loop hits. */
  lemma {:induction false} HitsAreOutranked(named: seq<Row>, g: Group, best: Row, ids: set<string>, r: Row)
    requires DistinctIds(named) && r in named
    requires best in Approvals(named, g) && forall x | x in Approvals(named, g) :: x == best || Later(best, x)
    requires ids == set x | x in Approvals(named, g) && x.id != best.id :: x.id
    ensures r.id in ids <==> GroupOf(r) == g && r.status.Approved? && Outranked(named, r)
  {
    var list := Approvals(named, g);
    ApprovalsMembers(named, g, r);
    ApprovalsMembers(named, g, best);
    if r.id in ids {
      var x :| x in list && x.id != best.id && x.id == r.id;
      ApprovalsMembers(named, g, x);
      assert x == r;
      assert Later(best, r);
    } else if GroupOf(r) == g && r.status.Approved? && Outranked(named, r) {
      var s :| s in named && s.status.Approved? && GroupOf(s) == GroupOf(r) && Later(s, r);
      ApprovalsMembers(named, g, s);
      NewestNotOutranked(best, s);
    }
  }

  /** The groups in `done` are settled, the others still as they were. */
  ghost predicate SettledIn(named: seq<Row>, rows: seq<Row>, done: seq<Group>) {
    && |rows| == |named|
    && forall i | 0 <= i < |rows| :: rows[i] == if GroupOf(named[i]) in done then Settle(named, named[i]) else named[i]
  }

  lemma {:induction false} SupersedeStep(named: seq<Row>, rows: seq<Row>, done: seq<Group>, g: Group, best: Row, ids: set<string>)
    requires DistinctIds(named) && SettledIn(named, rows, done)
    requires best in Approvals(named, g) && forall x | x in Approvals(named, g) :: x == best || Later(best, x)
    requires ids == set x | x in Approvals(named, g) && x.id != best.id :: x.id
    ensures SettledIn(named, Supersede(rows, ids), done + [g])
  {
    forall i | 0 <= i < |named|
      ensures Supersede(rows, ids)[i] == if GroupOf(named[i]) in done + [g] then Settle(named, named[i]) else named[i]
    {
      HitsAreOutranked(named, g, best, ids, named[i]);
    }
  }

  /** If no other row is later than `best`, then nothing is. */
  lemma {:induction false} NewestNotOutranked(best: Row, s: Row)
    requires s == best || Later(best, s)
    ensures !Later(s, best)
  {
    BeforeIrreflexive(best.id);
    if Before(best.id, s.id) && Before(s.id, best.id) {
      BeforeTransitive(best.id, s.id, best.id);
    }
  }

  // ----- what the upgrade guarantees

  lemma {:induction false} NewestExists(rows: seq<Row>) returns (best: Row)
    requires rows != [] && DistinctIds(rows)
    ensures best in rows && forall r | r in rows :: r == best || Later(best, r)
  {
    var n := |rows| - 1;
    best := rows[n];
    if n > 0 {
      var other := NewestExists(rows[..n]);
      assert rows == rows[..n] + [rows[n]];
      LaterTotal(rows[n], other);
      if Later(other, rows[n]) {
        best := other;
      } else {
        forall r | r in rows[..n]
          ensures Later(best, r)
        {
          if r != other {
            LaterTransitive(best, other, r);
          }
        }
      }
    }
  }

  /** `best` is the one row of its group that is still approved after the upgrade, and no approved row had a higher version. */
  ghost predicate SoleApproved(named: seq<Row>, best: Row) {
    && best in named && best.status.Approved?
    && forall r | r in named && GroupOf(r) == GroupOf(best) ::
         && (Settle(named, r).status.Approved? <==> r == best)
         && (r.status.Approved? ==> NotAfter(r, best))
  }

  /** A lower version, or the same version created earlier, or at the same time under an identifier that does not come later. */
  ghost predicate NotAfter(r: Row, best: Row) {
    && r.version <= best.version
    && (r.version == best.version ==> r.created <= best.created)
    && (r.version == best.version && r.created == best.created ==> r.id == best.id || Before(r.id, best.id))
  }

  /** Every group that had an approved row keeps exactly one: its highest version, then the last one created, then the last identifier. */
  lemma {:induction false} ExactlyOneApproved(named: seq<Row>, r: Row) returns (best: Row)
    requires DistinctIds(named) && r in named && r.status.Approved?
    ensures GroupOf(best) == GroupOf(r) && SoleApproved(named, best)
  {
    var g := GroupOf(r);
    var list := Approvals(named, g);
    ApprovalsMembers(named, g, r);
    ApprovalsDistinct(named, g);
    best := NewestExists(list);
    ApprovalsMembers(named, g, best);
    forall s | s in named && GroupOf(s) == g
      ensures (Settle(named, s).status.Approved? <==> s == best) && (s.status.Approved? ==> NotAfter(s, best))
    {
      SettledApproval(named, g, best, s);
    }
  }

  lemma {:induction false} SettledApproval(named: seq<Row>, g: Group, best: Row, s: Row)
    requires s in named && GroupOf(s) == g && best in Approvals(named, g)
    requires forall x | x in Approvals(named, g) :: x == best || Later(best, x)
    ensures (Settle(named, s).status.Approved? <==> s == best) && (s.status.Approved? ==> NotAfter(s, best))
  {
    ApprovalsMembers(named, g, s);
    ApprovalsMembers(named, g, best);
    if s == best && Outranked(named, best) {
      var x :| x in named && x.status.Approved? && GroupOf(x) == GroupOf(best) && Later(x, best);
      ApprovalsMembers(named, g, x);
      NewestNotOutranked(best, x);
    } else if s.status.Approved? && s != best {
      assert Later(best, s);
      assert Outranked(named, s);
    }
  }

  /** The upgrade changes nothing of a row but its identity, and its status only from approved to superseded. */
  lemma {:induction false} UpgradeKeepsTheRest(rows: seq<Row>, out: seq<Row>, i: nat)
    requires Upgraded(rows, out) && i < |rows|
    ensures |out| == |rows|
    ensures var was, now := rows[i], out[i];
            && now == was.(identity := now.identity, status := now.status)
            && (now.status == was.status || (was.status == Approved && now.status == Superseded))
  {
  }

  // ----- what an identity says

  /** What a row is about, beside its kind: the language of a translation, or the target, else the parent, of a fact review. */
  ghost predicate About(r: Row, subject: string) {
    && subject != ""
    && (r.kind == "refined_translation" ==> r.language == Some(subject))
    && (r.kind == "timeline_fact_review" ==>
          r.target == Some(subject) || ((r.target.None? || r.target == Some("")) && r.parent == Some(subject)))
  }

  ghost predicate Special(kind: string) { kind == "refined_translation" || kind == "timeline_fact_review" }

  /** A row gets no identity exactly when it needs a subject and has none. */
  lemma {:induction false} IdentifiableExactly(r: Row)
    ensures IdentityOf(r).Success? <==> (Special(r.kind) ==> exists subject :: About(r, subject))
  {
    if r.kind == "refined_translation" && Given(r.language) {
      assert About(r, r.language.value);
    } else if r.kind == "timeline_fact_review" {
      if Given(r.target) {
        assert About(r, r.target.value);
      } else if Given(r.parent) {
        assert About(r, r.parent.value);
      }
    }
  }

  /** Two rows without a colon in their kinds get the same identity exactly when they are of one kind and about the same. */
  lemma {:induction false} SameIdentityExactly(a: Row, b: Row)
    requires Regular(a) && Regular(b) && IdentityOf(a).Success? && IdentityOf(b).Success?
    ensures IdentityOf(a) == IdentityOf(b) <==>
            a.kind == b.kind && (Special(a.kind) ==> exists subject :: About(a, subject) && About(b, subject))
  {
    IdentityForm(a);
    IdentityForm(b);
    if a.kind == b.kind && Special(a.kind) {
      SubjectTells(a);
      SubjectTells(b);
      var x, y, n := IdentityOf(a).value, IdentityOf(b).value, |a.kind| + 1;
      assert x == x[..n] + x[n..] && y == y[..n] + y[n..];
      assert About(a, x[n..]);
      assert About(b, x[n..]) <==> x[n..] == y[n..];
    }
  }

  lemma {:induction false} SubjectTells(r: Row)
    requires Special(r.kind) && IdentityOf(r).Success?
    ensures var x, n := IdentityOf(r).value, |r.kind| + 1;
            && |x| > n && x[..n] == r.kind + ":" && forall subject :: About(r, subject) <==> subject == x[n..]
  {
    var x, n := IdentityOf(r).value, |r.kind| + 1;
    if r.kind == "refined_translation" {
      assert x == "refined_translation:" + r.language.value && n == 20;
    } else {
      var target := if Given(r.target) then r.target else r.parent;
      assert x == "timeline_fact_review:" + target.value && n == 21;
    }
  }

  // ----- the constraints before and after

  /** The unique constraints before the upgrade: by language, and among the rows without one. */
  ghost predicate OldUnique(rows: seq<Row>) {
    forall i, j | 0 <= i < j < |rows| ::
      !(rows[i].package == rows[j].package && rows[i].kind == rows[j].kind && rows[i].language == rows[j].language
        && rows[i].version == rows[j].version)
  }

  ghost predicate NewUnique(rows: seq<Row>) {
    forall i, j | 0 <= i < j < |rows| :: !(GroupOf(rows[i]) == GroupOf(rows[j]) && rows[i].version == rows[j].version)
  }

  /** Within a package, an identity fixes the kind and the language. */
  ghost predicate IdentityFixes(rows: seq<Row>) {
    forall i, j | 0 <= i < j < |rows| && GroupOf(rows[i]) == GroupOf(rows[j]) ::
      rows[i].kind == rows[j].kind && rows[i].language == rows[j].language
  }

  /** Rows of one identity that differ in kind or language also differ in version. */
  ghost predicate VersionsTellApart(rows: seq<Row>) {
    forall i, j | 0 <= i < j < |rows| && GroupOf(rows[i]) == GroupOf(rows[j]) ::
      rows[i].kind != rows[j].kind || rows[i].language != rows[j].language ==> rows[i].version != rows[j].version
  }

  /** A table that satisfies the old constraints satisfies the new one exactly if versions tell such rows apart. */
  lemma {:induction false} NewUniqueExactly(rows: seq<Row>)
    requires OldUnique(rows)
    ensures NewUnique(rows) <==> VersionsTellApart(rows)
  {
  }

  lemma {:induction false} OldMeansNew(rows: seq<Row>)
    requires OldUnique(rows) && IdentityFixes(rows)
    ensures NewUnique(rows)
  {
    NewUniqueExactly(rows);
  }

  /** Two rows of one kind in two languages may share a version before the upgrade, but not after it. */
  lemma {:induction false} LanguagesCanClash()
    ensures var a := Row("1", "p", "summary", 1, Some("en"), Other("draft"), None, None, 0, "summary");
            var b := a.(id := "2", language := Some("fr"));
            OldUnique([a, b]) && IdentityOf(a) == IdentityOf(b) == Success("summary") && !NewUnique([a, b])
  {
    var a := Row("1", "p", "summary", 1, Some("en"), Other("draft"), None, None, 0, "summary");
    var b := a.(id := "2", language := Some("fr"));
    assert "en"[0] != "fr"[0];
    assert |"summary"| == 7 && |"refined_translation"| == 19 && |"timeline_fact_review"| == 20;
    assert [a, b][0] == a && [a, b][1] == b;
  }

  // ----- downgrade

  const Offset := 1_000_000

  type Series = (string, string, Option<string>)

  function SeriesOf(r: Row): Series { (r.package, r.kind, r.language) }

  function CountOf(rows: seq<Row>, s: Series): nat {
    if rows == [] then 0
    else CountOf(rows[..|rows| - 1], s) + (if SeriesOf(rows[|rows| - 1]) == s then 1 else 0)
  }

  /** The number that row `k` gets: its place among the rows of its series so far. */
  function Rank(rows: seq<Row>, k: nat): nat
    requires k < |rows|
  {
    CountOf(rows[..k], SeriesOf(rows[k])) + 1
  }

  /** Would giving row `k` version `v` clash with another row under the constraint in force? */
  predicate Clashes(rows: seq<Row>, k: nat, v: int)
    requires k < |rows|
  {
    exists j | 0 <= j < |rows| :: j != k && GroupOf(rows[j]) == GroupOf(rows[k]) && rows[j].version == v
  }

  ghost function FirstRows(k: nat): nat -> bool { i => i < k }

  /** The rows of `was` with those in `moved` shifted up. */
  ghost predicate Shifting(was: seq<Row>, now: seq<Row>, moved: nat -> bool) {
    && |now| == |was|
    && forall i | 0 <= i < |was| :: now[i] == if moved(i) then was[i].(version := was[i].version + Offset) else was[i]
  }

  /** No two versions of one identity are exactly the offset apart. */
  ghost predicate NoGap(rows: seq<Row>) {
    forall i, j | 0 <= i < |rows| && 0 <= j < |rows| :: GroupOf(rows[i]) == GroupOf(rows[j]) ==> rows[j].version != rows[i].version + 1_000_000
  }

  /** Row `k` would meet a later row of its identity when it is shifted. */
  ghost predicate ShiftClash(was: seq<Row>, k: nat)
    requires k < |was|
  {
    exists j :: k < j < |was| && GroupOf(was[j]) == GroupOf(was[k]) && was[j].version == was[k].version + 1_000_000
  }

  ghost predicate ShiftSafe(was: seq<Row>) { forall k | 0 <= k < |was| :: !ShiftClash(was, k) }

  /** With the rows before `k` shifted, shifting row `k` clashes exactly with such a later row. */
  lemma {:induction false} ShiftClashExactly(was: seq<Row>, now: seq<Row>, k: nat)
    requires NewUnique(was) && Shifting(was, now, FirstRows(k)) && k < |was|
    ensures Clashes(now, k, was[k].version + Offset) <==> ShiftClash(was, k)
  {
    if ShiftClash(was, k) {
      var j :| k < j < |was| && GroupOf(was[j]) == GroupOf(was[k]) && was[j].version == was[k].version + Offset;
      assert now[j] == was[j] && now[k] == was[k];
    }
  }

  lemma {:induction false} NoGapIsSafe(was: seq<Row>)
    requires NoGap(was)
    ensures ShiftSafe(was)
  {
  }

  /** Whatever rows an update of the whole table has reached, shifting one more does not clash. */
  lemma {:induction false} ShiftNeverClashes(was: seq<Row>, now: seq<Row>, moved: nat -> bool, k: nat)
    requires NewUnique(was) && NoGap(was) && Shifting(was, now, moved) && k < |was| && !moved(k)
    ensures !Clashes(now, k, was[k].version + Offset)
  {
  }

  /** With two versions the offset apart, an update that reaches the lower one first does clash. */
  lemma {:induction false} GapClashes(was: seq<Row>, i: nat, j: nat)
    requires i < |was| && j < |was| && GroupOf(was[i]) == GroupOf(was[j]) && was[j].version == was[i].version + Offset
    ensures Clashes(was, i, was[i].version + Offset)
  {
  }

  lemma {:induction false} CountGrows(rows: seq<Row>, i: nat, j: nat, s: Series)
    requires i <= j <= |rows|
    ensures CountOf(rows[..i], s) <= CountOf(rows[..j], s)
    ensures i < j && SeriesOf(rows[i]) == s ==> CountOf(rows[..i], s) < CountOf(rows[..j], s)
  {
    if i < j {
      assert rows[..j][..j - 1] == rows[..j - 1];
      CountGrows(rows, i, j - 1, s);
    }
  }

  /** The numbers of one series rise in creation order from 1 to the number of its rows. */
  lemma {:induction false} RankInRange(rows: seq<Row>, i: nat, j: nat)
    requires i < |rows| && j < |rows| && SeriesOf(rows[i]) == SeriesOf(rows[j])
    ensures 1 <= Rank(rows, i) <= CountOf(rows, SeriesOf(rows[i]))
    ensures i < j ==> Rank(rows, i) < Rank(rows, j)
  {
    var s := SeriesOf(rows[i]);
    CountGrows(rows, i, |rows|, s);
    assert rows[..|rows|] == rows;
    if i < j {
      CountGrows(rows, i, j, s);
    }
  }

  /** The rows of the series of row `k` up to and with row `k`. */
  ghost function UpTo(rows: seq<Row>, n: nat, s: Series): set<nat> {
    set i: nat | i < n && i < |rows| && rows[i].package == s.0 && rows[i].kind == s.1 && rows[i].language == s.2
  }

  lemma {:induction false} CountIsSize(rows: seq<Row>, n: nat, s: Series)
    requires n <= |rows|
    ensures CountOf(rows[..n], s) == |UpTo(rows, n, s)|
  {
    if n == 0 {
      assert UpTo(rows, n, s) == {};
    } else {
      CountIsSize(rows, n - 1, s);
      assert rows[..n][..n - 1] == rows[..n - 1];
      assert UpTo(rows, n, s) == UpTo(rows, n - 1, s) + (if SeriesOf(rows[n - 1]) == s then {n - 1} else {});
    }
  }

  /** The number of a row: how many rows of its package, kind and language were created up to it. */
  lemma {:induction false} RankExactly(rows: seq<Row>, k: nat)
    requires k < |rows|
    ensures Rank(rows, k) == |UpTo(rows, k + 1, (rows[k].package, rows[k].kind, rows[k].language))|
  {
    CountIsSize(rows, k + 1, SeriesOf(rows[k]));
    assert rows[..k + 1][..k] == rows[..k];
  }

  /** ... and every number in that range is given out. */
  lemma {:induction false} RankOnto(rows: seq<Row>, s: Series, v: nat) returns (i: nat)
    requires 1 <= v <= CountOf(rows, s)
    ensures i < |rows| && SeriesOf(rows[i]) == s && Rank(rows, i) == v
  {
    var n := |rows| - 1;
    if v <= CountOf(rows[..n], s) {
      i := RankOnto(rows[..n], s, v);
      assert rows[..n][..i] == rows[..i];
    } else {
      i := n;
    }
  }

  /** Rows already renumbered, and rows still shifted. */
  ghost predicate Renumbering(was: seq<Row>, now: seq<Row>, k: nat) {
    && |now| == |was| && k <= |was|
    && (forall i | 0 <= i < k :: now[i] == was[i].(version := Rank(was, i)))
    && (forall i | k <= i < |was| :: now[i] == was[i].(version := was[i].version + Offset))
  }

  ghost predicate Versioned(rows: seq<Row>) {
    && (forall i | 0 <= i < |rows| :: rows[i].version >= 1)
    && (forall i | 0 <= i < |rows| :: CountOf(rows, SeriesOf(rows[i])) <= Offset)
  }

  /** Row `k` would meet a row of its identity, renumbered or still shifted, at its new number. */
  ghost predicate RenumberClash(was: seq<Row>, k: nat)
    requires k < |was|
  {
    exists j :: 0 <= j < |was| && MeetsAt(was, k, j)
  }

  ghost predicate MeetsAt(was: seq<Row>, k: nat, j: nat)
    requires k < |was| && j < |was|
  {
    j != k && GroupOf(was[j]) == GroupOf(was[k]) && Rank(was, k) == if j < k then Rank(was, j) else was[j].version + Offset
  }

  ghost predicate RenumberSafe(was: seq<Row>) { forall k | 0 <= k < |was| :: !RenumberClash(was, k) }

  /** A renumbering step clashes with the constraint on identity and version, still in force, exactly in that case. */
  lemma {:induction false} RenumberClashExactly(was: seq<Row>, now: seq<Row>, k: nat)
    requires Renumbering(was, now, k) && k < |was|
    ensures Clashes(now, k, Rank(was, k)) <==> RenumberClash(was, k)
  {
    forall j | 0 <= j < |was|
      ensures (j != k && GroupOf(now[j]) == GroupOf(now[k]) && now[j].version == Rank(was, k)) <==> MeetsAt(was, k, j)
    {
    }
  }

  /** With versions from 1, at most 1,000,000 rows to a series and identities that fix kind and language, no step clashes. */
  lemma {:induction false} RenumberNeverClashes(was: seq<Row>)
    requires Versioned(was) && IdentityFixes(was)
    ensures RenumberSafe(was)
  {
    forall k, j | 0 <= k < |was| && 0 <= j < |was|
      ensures !MeetsAt(was, k, j)
    {
      if j != k && GroupOf(was[j]) == GroupOf(was[k]) {
        assert SeriesOf(was[j]) == SeriesOf(was[k]);
        RankInRange(was, k, j);
        RankInRange(was, j, k);
      }
    }
  }

  ghost predicate Tallied(versions: map<Series, int>, rows: seq<Row>) {
    forall s :: Held(versions, s) == CountOf(rows, s)
  }

  lemma {:induction false} TallyStep(rows: seq<Row>, k: nat, versions: map<Series, int>)
    requires k < |rows| && Tallied(versions, rows[..k])
    ensures var s := SeriesOf(rows[k]);
            Held(versions, s) + 1 == Rank(rows, k) && Tallied(versions[s := Held(versions, s) + 1], rows[..k + 1])
  {
    var front, all, s := rows[..k], rows[..k + 1], SeriesOf(rows[k]);
    assert all[..k] == front && all[k] == rows[k];
    var next := versions[s := Held(versions, s) + 1];
    forall u
      ensures Held(next, u) == CountOf(all, u)
    {
      assert CountOf(all, u) == CountOf(front, u) + (if s == u then 1 else 0);
      assert Held(versions, u) == CountOf(front, u);
    }
  }

  lemma {:induction false} RenumberStep(was: seq<Row>, now: seq<Row>, k: nat)
    requires Renumbering(was, now, k) && k < |was|
    ensures SeriesOf(now[k]) == SeriesOf(was[k])
    ensures Renumbering(was, now[k := now[k].(version := Rank(was, k))], k + 1)
    ensures Clashes(now, k, Rank(was, k)) <==> RenumberClash(was, k)
  {
    RenumberClashExactly(was, now, k);
  }

  /** After the downgrade the old constraints hold. */
  lemma {:induction false} RenumberedIsOldUnique(was: seq<Row>, now: seq<Row>)
    requires Renumbering(was, now, |was|)
    ensures OldUnique(now)
  {
    forall i, j | 0 <= i < j < |now| && SeriesOf(now[i]) == SeriesOf(now[j])
      ensures now[i].version != now[j].version
    {
      RankInRange(was, i, j);
    }
  }

  // ----- when an identity fixes kind and language

  predicate Plain(kind: string) { forall i | 0 <= i < |kind| :: kind[i] != ':' }

  /** Kinds without a colon, and languages only on translations. */
  ghost predicate Regular(r: Row) { Plain(r.kind) && (r.kind != "refined_translation" ==> r.language.None?) }

  /** The identity tells which of the three forms it has. */
  lemma {:induction false} IdentityForm(r: Row)
    requires Regular(r) && IdentityOf(r).Success?
    ensures var x := IdentityOf(r).value;
            && (r.kind == "refined_translation" ==> |x| > 20 && x[0] == 'r' && x[19] == ':' && r.language == Some(x[20..]))
            && (r.kind == "timeline_fact_review" ==> |x| > 21 && x[0] == 't' && x[20] == ':')
            && (r.kind != "refined_translation" && r.kind != "timeline_fact_review" ==> x == r.kind && Plain(x))
  {
    var t, f := "refined_translation:", "timeline_fact_review:";
    var x := IdentityOf(r).value;
    if r.kind == "refined_translation" {
      assert x == t + r.language.value && t[19] == ':';
    } else if r.kind == "timeline_fact_review" {
      var target := if Given(r.target) then r.target else r.parent;
      assert x == f + target.value && f[20] == ':';
    }
  }

  lemma {:induction false} PairFixes(a: Row, b: Row)
    requires Regular(a) && Regular(b) && IdentityOf(a).Success? && IdentityOf(a) == IdentityOf(b)
    ensures a.kind == b.kind && a.language == b.language
  {
    IdentityForm(a);
    IdentityForm(b);
  }

  /** Then every identified table satisfies what the downgrade needs of identities. */
  lemma {:induction false} RegularFixes(rows: seq<Row>, named: seq<Row>)
    requires Identified(rows, named) && forall i | 0 <= i < |rows| :: Regular(rows[i])
    ensures IdentityFixes(named)
  {
    forall i, j | 0 <= i < j < |named| && GroupOf(named[i]) == GroupOf(named[j])
      ensures named[i].kind == named[j].kind && named[i].language == named[j].language
    {
      PairFixes(rows[i], rows[j]);
    }
  }

  /** ... and the upgrade's new constraint holds of it. */
  lemma {:induction false} RegularUpgrades(rows: seq<Row>, named: seq<Row>)
    requires Identified(rows, named) && OldUnique(rows) && forall i | 0 <= i < |rows| :: Regular(rows[i])
    ensures NewUnique(named)
  {
    RegularFixes(rows, named);
    OldMeansNew(named);
  }
}
