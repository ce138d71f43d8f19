/** Which alarming camera goes to which of the four panes. */
module PaneAssignment {
  import opened Alarms

  /** The alarm list, with -1 where a camera has been given to a pane, and the panes so far. */
  datatype Panes = Panes(list: seq<int>, next: seq<int>)

  function IndexOf(list: seq<int>, v: int, from: nat): (j: int)
    requires from <= |list|
    ensures j == -1 || from <= j < |list|
    ensures j == -1 <==> v !in list[from..]
    ensures j >= 0 ==> list[j] == v
    decreases |list| - from
  {
    if from == |list| then -1
    else if list[from] == v then from
    else IndexOf(list, v, from + 1)
  }

  function FirstMapped(list: seq<int>, from: nat): (j: int)
    requires from <= |list|
    ensures j == -1 || from <= j < |list|
    ensures j == -1 <==> forall k :: from <= k < |list| ==> list[k] == -1
    ensures j >= 0 ==> list[j] != -1 && forall k :: from <= k < j ==> list[k] == -1
    decreases |list| - from
  {
    if from == |list| then -1
    else if list[from] != -1 then from
    else FirstMapped(list, from + 1)
  }

  /** The next pane keeps its camera if that camera still alarms. */
  function KeepPane(a: Panes, cur: int): (r: Panes)
    ensures |r.list| == |a.list| && |r.next| == |a.next| + 1
  {
    var j := if cur == -1 then -1 else IndexOf(a.list, cur, 0);
    if j >= 0 then Panes(a.list[j := -1], a.next + [cur]) else Panes(a.list, a.next + [-1])
  }

  function Keep(list: seq<int>, cur: seq<int>, n: nat): (r: Panes)
    requires n <= |cur|
    ensures |r.list| == |list| && |r.next| == n
  {
    if n == 0 then Panes(list, []) else KeepPane(Keep(list, cur, n - 1), cur[n - 1])
  }

  /** An empty pane takes the first camera still in the list. */
  function FillPane(a: Panes, i: nat): (r: Panes)
    requires i < |a.next|
    ensures |r.list| == |a.list| && |r.next| == |a.next|
  {
    var j := FirstMapped(a.list, 0);
    if a.next[i] == -1 && j >= 0 then Panes(a.list[j := -1], a.next[i := a.list[j]]) else a
  }

  function Fill(a: Panes, n: nat): (r: Panes)
    requires n <= |a.next|
    ensures |r.list| == |a.list| && |r.next| == |a.next|
  {
    if n == 0 then a else FillPane(Fill(a, n - 1), n - 1)
  }

  function Filled(list: seq<int>, cur: seq<int>): (r: Panes)
    ensures |r.list| == |list| && |r.next| == |cur|
  {
    Fill(Keep(list, cur, |cur|), |cur|)
  }

  /** The first alarm of the list overrides pane 0 if no pane has taken it. */
  function Assigned(list: seq<int>, cur: seq<int>): (next: seq<int>)
    requires |list| > 0 && |cur| == 4
    ensures |next| == 4
  {
    var a := Filled(list, cur);
    if a.list[0] != -1 then a.next[0 := a.list[0]] else a.next
  }

  /** Whether the four-pane view has to be brought up again. */
  function Freshed(list: seq<int>, cur: seq<int>): bool
    requires |list| > 0 && |cur| == 4
  {
    Filled(list, cur).next != cur || Filled(list, cur).list[0] != -1
  }

  // ----- What every step keeps

  /** Each camera of the original list is either still in it, at its place, or in one pane. */
  ghost predicate Accounted(orig: seq<int>, a: Panes) {
    && |a.list| == |orig|
    && (forall j :: 0 <= j < |orig| ==> a.list[j] == orig[j] || a.list[j] == -1)
    && (forall j :: 0 <= j < |orig| && orig[j] != -1 ==> (a.list[j] == -1 <==> orig[j] in a.next))
    && (forall i :: 0 <= i < |a.next| && a.next[i] != -1 ==> a.next[i] in orig)
    && (forall i, k :: 0 <= i < k < |a.next| && a.next[i] != -1 ==> a.next[i] != a.next[k])
  }

  lemma KeepPaneAccounts(orig: seq<int>, a: Panes, c: int)
    requires Distinct(orig) && Accounted(orig, a)
    ensures var r := KeepPane(a, c);
      && Accounted(orig, r)
      && (r.next[|a.next|] == -1 || r.next[|a.next|] == c)
      && (c != -1 && c in orig && c !in a.next ==> r.next[|a.next|] == c)
  {
    var r := KeepPane(a, c);
    var n := |a.next|;
    var j := if c == -1 then -1 else IndexOf(a.list, c, 0);
    assert r.next[..n] == a.next;
    if j >= 0 {
      assert a.list[j] == orig[j] == c;
      assert c !in a.next;
      forall k | 0 <= k < |orig| && orig[k] != -1
        ensures r.list[k] == -1 <==> orig[k] in r.next
      {
        assert orig[k] in r.next <==> orig[k] in a.next || orig[k] == c;
      }
    } else {
      forall k | 0 <= k < |orig| && orig[k] != -1
        ensures orig[k] in r.next <==> orig[k] in a.next
      {
        assert orig[k] in r.next <==> orig[k] in a.next || orig[k] == -1;
      }
    }
  }

  lemma {:induction false} KeepAccounts(list: seq<int>, cur: seq<int>, n: nat)
    requires Distinct(list) && n <= |cur|
    ensures Accounted(list, Keep(list, cur, n))
    ensures forall i :: 0 <= i < n ==> Keep(list, cur, n).next[i] == -1 || Keep(list, cur, n).next[i] == cur[i]
    ensures forall i :: 0 <= i < n && cur[i] != -1 && cur[i] in list && cur[i] !in cur[..i] ==>
      Keep(list, cur, n).next[i] == cur[i]
  {
    if n > 0 {
      hide Accounted, KeepPane;
      KeepAccounts(list, cur, n - 1);
      var a := Keep(list, cur, n - 1);
      KeepPaneAccounts(list, a, cur[n - 1]);
      KeepPaneExtends(a, cur[n - 1]);
    } else {
      assert Keep(list, cur, 0).next == [];
    }
  }

  lemma KeepPaneExtends(a: Panes, c: int)
    ensures KeepPane(a, c).next[..|a.next|] == a.next
  {}

  lemma FillPaneAccounts(orig: seq<int>, a: Panes, i: nat)
    requires Distinct(orig) && Accounted(orig, a) && i < |a.next|
    ensures Accounted(orig, FillPane(a, i))
  {
    var j := FirstMapped(a.list, 0);
    if a.next[i] == -1 && j >= 0 {
      var r := FillPane(a, i);
      assert orig[j] !in a.next;
      assert r.next[i] == orig[j];
      forall k | 0 <= k < |orig| && orig[k] != -1
        ensures r.list[k] == -1 <==> orig[k] in r.next
      {
        if orig[k] in a.next {
          var q :| 0 <= q < |a.next| && a.next[q] == orig[k];
          assert r.next[q] == orig[k];
        }
      }
    }
  }

  predicate UsedUp(list: seq<int>) {
    forall j :: 0 <= j < |list| ==> list[j] == -1
  }

  lemma FillPaneStep(a: Panes, i: nat)
    requires i < |a.next|
    ensures var r := FillPane(a, i);
      && (forall k :: 0 <= k < |a.next| && (k != i || a.next[k] != -1) ==> r.next[k] == a.next[k])
      && (r.next[i] == -1 ==> UsedUp(a.list))
      && (UsedUp(a.list) ==> r == a)
  {}

  lemma {:induction false} FillAccounts(orig: seq<int>, a: Panes, n: nat)
    requires Distinct(orig) && Accounted(orig, a) && n <= |a.next|
    ensures Accounted(orig, Fill(a, n))
    decreases n
  {
    hide Accounted, FillPane, Distinct;
    if n > 0 {
      FillAccounts(orig, a, n - 1);
      FillPaneAccounts(orig, Fill(a, n - 1), n - 1);
    }
  }

  /** Panes in use are left alone; once a pane finds nothing, the list is used up, and
      stays so. */
  lemma {:induction false} FillUsesUp(a: Panes, n: nat)
    requires n <= |a.next|
    ensures forall i :: 0 <= i < |a.next| && (a.next[i] != -1 || i >= n) ==> Fill(a, n).next[i] == a.next[i]
    ensures forall i :: 0 <= i < n && Fill(a, n).next[i] == -1 ==> UsedUp(Fill(a, n).list)
  {
    if n > 0 {
      hide FillPane, UsedUp;
      FillUsesUp(a, n - 1);
      FillPaneStep(Fill(a, n - 1), n - 1);
    }
  }

  lemma FilledAccounts(list: seq<int>, cur: seq<int>)
    requires Distinct(list)
    ensures var r := Filled(list, cur);
      && Accounted(list, r)
      && (forall i :: 0 <= i < |cur| && cur[i] != -1 && cur[i] in list && cur[i] !in cur[..i] ==> r.next[i] == cur[i])
      && (forall i :: 0 <= i < |cur| && r.next[i] == -1 ==> UsedUp(r.list))
  {
    hide Keep, Fill;
    KeepAccounts(list, cur, |cur|);
    FillAccounts(list, Keep(list, cur, |cur|), |cur|);
    FillUsesUp(Keep(list, cur, |cur|), |cur|);
  }

  // ----- What the assignment promises

  /** The number of different cameras among the alarms (an alarm may have no camera: -1). */
  ghost function Mapped(list: seq<int>): set<int> {
    set v | v in list && v != -1
  }

  /** The panes show different cameras, all alarming; the first alarm is on screen; a pane
      whose camera still alarms keeps it, except pane 0 when the first alarm takes it over,
      which it does only when there was no other room for it. */
  lemma AssignmentIsStable(list: seq<int>, cur: seq<int>)
    requires Distinct(list) && |list| > 0 && |cur| == 4
    ensures var next := Assigned(list, cur);
      && (forall i :: 0 <= i < 4 && next[i] != -1 ==> next[i] in list)
      && (forall i, k :: 0 <= i < k < 4 && next[i] != -1 ==> next[i] != next[k])
      && (list[0] != -1 ==> list[0] in next)
      && (forall i :: 0 <= i < 4 && cur[i] != -1 && cur[i] in list && cur[i] !in cur[..i] ==>
           next[i] == cur[i] || (i == 0 && next[0] == list[0]))
  {
    hide Filled;
    FilledAccounts(list, cur);
    var a := Filled(list, cur);
    var next := Assigned(list, cur);
    if a.list[0] != -1 {
      assert list[0] !in a.next;
      assert next[0] == list[0];
    }
  }

  /** With at most four alarming cameras every one is shown; with four or more every pane is
      in use. */
  lemma AssignmentIsComplete(list: seq<int>, cur: seq<int>)
    requires Distinct(list) && |list| > 0 && |cur| == 4
    ensures |Mapped(list)| <= 4 ==> forall v :: v in Mapped(list) ==> v in Assigned(list, cur)
    ensures |Mapped(list)| >= 4 ==> -1 !in Assigned(list, cur)
  {
    hide Filled;
    FilledAccounts(list, cur);
    var a := Filled(list, cur);
    var shown := Mapped(a.next);
    assert shown <= Mapped(list);
    FourPanes(a.next);
    if -1 in a.next {
      assert forall v :: v in Mapped(list) ==> v in a.next;
      assert Mapped(list) == shown;
    } else if exists v :: v in Mapped(list) && v !in a.next {
      var v :| v in Mapped(list) && v !in a.next;
      assert shown + {v} <= Mapped(list);
      Smaller(shown + {v}, Mapped(list));
    }
  }

  // ----- Which alarms get the panes

  /** The panes filled so far took the cameras of the list before place p, in its order. */
  ghost predicate TookFirst(a: Panes, r: Panes, n: nat, p: nat)
    requires |r.list| == |a.list| && |r.next| == |a.next| && n <= |a.next|
  {
    && p <= |a.list|
    && (forall j :: 0 <= j < p ==> r.list[j] == -1)
    && (forall j :: p <= j < |a.list| ==> r.list[j] == a.list[j])
    && (forall i :: 0 <= i < n && a.next[i] == -1 && r.next[i] != -1 ==> r.next[i] in a.list[..p])
    && (forall i :: 0 <= i < |a.next| && (i >= n || a.next[i] != -1) ==> r.next[i] == a.next[i])
    && (forall i, k, x, y | 0 <= i < k < n && 0 <= x < |a.list| && 0 <= y < |a.list| ::
          a.next[i] == a.next[k] == -1 && r.next[i] == a.list[x] != -1 && r.next[k] == a.list[y] != -1 ==> x < y)
  }

  /** A list in which no camera stands twice. */
  predicate DistinctCameras(list: seq<int>) {
    forall i, k :: 0 <= i < k < |list| && list[i] != -1 ==> list[i] != list[k]
  }

  lemma FillPaneTakesFirst(a: Panes, b: Panes, n: nat, p: nat) returns (q: nat)
    requires |b.list| == |a.list| && |b.next| == |a.next| && n < |a.next| && DistinctCameras(a.list)
    requires TookFirst(a, b, n, p)
    ensures TookFirst(a, FillPane(b, n), n + 1, q)
  {
    q := p;
    var j := FirstMapped(b.list, 0);
    if b.next[n] == -1 && j >= 0 {
      q := j + 1;
      assert a.list[..q][j] == b.list[j];
      assert forall v :: v in a.list[..p] ==> v in a.list[..q];
    }
  }

  lemma NoneTaken(a: Panes)
    ensures TookFirst(a, a, 0, 0)
  {}

  lemma {:induction false} FillTakesFirst(a: Panes, n: nat) returns (p: nat)
    requires n <= |a.next| && DistinctCameras(a.list)
    ensures TookFirst(a, Fill(a, n), n, p)
    decreases n
  {
    hide TookFirst, FillPane, DistinctCameras;
    p := 0;
    if n == 0 {
      NoneTaken(a);
    } else {
      p := FillTakesFirst(a, n - 1);
      p := FillPaneTakesFirst(a, Fill(a, n - 1), n - 1, p);
    }
  }

  /** The panes all keep alarming cameras, and the first alarm is not one of them. */
  predicate Crowded(list: seq<int>, cur: seq<int>)
    requires |list| > 0
  {
    && list[0] != -1 && list[0] !in cur
    && (forall i :: 0 <= i < |cur| ==> cur[i] != -1 && cur[i] in list)
    && (forall i, k :: 0 <= i < k < |cur| ==> cur[i] != cur[k])
  }

  lemma KeptAreCurrent(list: seq<int>, cur: seq<int>)
    requires Distinct(list)
    ensures var a := Keep(list, cur, |cur|);
      && Accounted(list, a) && DistinctCameras(a.list)
      && (forall i :: 0 <= i < |cur| ==> a.next[i] == -1 || a.next[i] == cur[i])
      && (forall i :: 0 <= i < |cur| && cur[i] != -1 && cur[i] in list && cur[i] !in cur[..i] ==> a.next[i] == cur[i])
  {
    hide Keep;
    KeepAccounts(list, cur, |cur|);
  }

  lemma CrowdedLeavesOver(list: seq<int>, cur: seq<int>)
    requires Distinct(list) && |list| > 0 && Crowded(list, cur)
    ensures Filled(list, cur).list[0] == list[0] != -1 && Filled(list, cur).next == cur
  {
    FilledAccounts(list, cur);
    hide Filled;
    forall i | 0 <= i < |cur|
      ensures cur[i] !in cur[..i]
    {}
    assert Filled(list, cur).next == cur;
  }

  lemma NoPaneFilled(a: Panes, r: Panes, p: nat)
    requires |r.list| == |a.list| > 0 && |r.next| == |a.next|
    requires TookFirst(a, r, |a.next|, p) && r.list[0] != -1
    requires forall i :: 0 <= i < |a.next| && r.next[i] == -1 ==> UsedUp(r.list)
    ensures a.list[0] == r.list[0] && forall i :: 0 <= i < |a.next| ==> a.next[i] != -1
  {
    assert p == 0 && a.list[..0] == [];
  }

  lemma AllKeptIsCrowded(list: seq<int>, a: Panes)
    requires |list| == |a.list| > 0 && Accounted(list, a) && a.list[0] != -1
    requires forall i :: 0 <= i < |a.next| ==> a.next[i] != -1
    ensures Crowded(list, a.next)
  {}

  lemma LeftOverIsCrowded(list: seq<int>, cur: seq<int>)
    requires Distinct(list) && |list| > 0 && Filled(list, cur).list[0] != -1
    ensures Crowded(list, cur)
  {
    var a, r := Keep(list, cur, |cur|), Filled(list, cur);
    KeptAreCurrent(list, cur);
    var p := FillTakesFirst(a, |cur|);
    FilledAccounts(list, cur);
    hide Keep, Fill, Filled, DistinctCameras, TookFirst, UsedUp, Accounted, Crowded, Distinct;
    NoPaneFilled(a, r, p);
    AllKeptIsCrowded(list, a);
    assert a.next == cur;
  }

  /** When every pane keeps an alarming camera and the first alarm is not among them, it takes pane 0 and
      that is all; otherwise every pane whose camera still alarms keeps it. */
  lemma FirstAlarmTakesPane(list: seq<int>, cur: seq<int>)
    requires Distinct(list) && |list| > 0 && |cur| == 4
    ensures var next := Assigned(list, cur);
      if Crowded(list, cur) then next == cur[0 := list[0]]
      else forall i :: 0 <= i < 4 && cur[i] != -1 && cur[i] in list && cur[i] !in cur[..i] ==> next[i] == cur[i]
  {
    hide Filled, Crowded;
    if Crowded(list, cur) {
      CrowdedLeavesOver(list, cur);
    } else {
      if Filled(list, cur).list[0] != -1 {
        LeftOverIsCrowded(list, cur);
      }
      FilledAccounts(list, cur);
      hide Accounted, UsedUp;
    }
  }

  lemma TakenBefore(list: seq<int>, cur: seq<int>, j: nat, k: nat)
    requires Distinct(list) && j < k < |list| && list[j] != -1
    requires list[j] !in Filled(list, cur).next && list[k] in Filled(list, cur).next
    ensures list[k] in cur
  {
    var a, r := Keep(list, cur, |cur|), Filled(list, cur);
    KeptAreCurrent(list, cur);
    var p := FillTakesFirst(a, |cur|);
    FilledAccounts(list, cur);
    hide Keep, Fill, Filled, DistinctCameras;
    assert r.list[j] != -1 && list[k] != -1;
    assert p <= j && r.list[k] == -1;
    assert a.list[k] == -1 && list[k] in a.next;
    hide TookFirst, Accounted;
  }

  /** The first alarms come first: an alarm that gets no pane has behind it in the list only alarms that
      keep theirs, and none that gets one anew. */
  lemma FirstAlarmsFirst(list: seq<int>, cur: seq<int>, j: nat, k: nat)
    requires Distinct(list) && |cur| == 4 && j < k < |list| && list[j] != -1
    requires list[j] !in Assigned(list, cur) && list[k] in Assigned(list, cur)
    ensures list[k] in cur
  {
    FirstAlarmTakesPane(list, cur);
    hide Filled;
    if !Crowded(list, cur) {
      if Filled(list, cur).list[0] != -1 {
        LeftOverIsCrowded(list, cur);
      }
      hide Crowded;
      TakenBefore(list, cur, j, k);
    }
  }

  lemma FilledInOrder(list: seq<int>, cur: seq<int>, i: nat, k: nat, x: nat, y: nat)
    requires Distinct(list) && i < k < |cur| && x < |list| && y < |list|
    requires Filled(list, cur).next[i] == list[x] != -1 && list[x] !in cur
    requires Filled(list, cur).next[k] == list[y] != -1 && list[y] !in cur
    ensures x < y
  {
    var a, r := Keep(list, cur, |cur|), Filled(list, cur);
    KeptAreCurrent(list, cur);
    var p := FillTakesFirst(a, |cur|);
    hide Keep, Fill, Filled, DistinctCameras;
    assert a.next[i] == a.next[k] == -1;
    assert list[x] !in a.next && list[y] !in a.next;
    assert a.list[x] == list[x] && a.list[y] == list[y];
    hide Accounted;
  }

  /** The alarms that get a pane anew stand in the panes as they do in the list. */
  lemma NewAlarmsInOrder(list: seq<int>, cur: seq<int>, i: nat, k: nat, x: nat, y: nat)
    requires Distinct(list) && |cur| == 4 && i < k < 4 && x < |list| && y < |list|
    requires Assigned(list, cur)[i] == list[x] != -1 && list[x] !in cur
    requires Assigned(list, cur)[k] == list[y] != -1 && list[y] !in cur
    ensures x < y
  {
    assert cur[k] in cur;
    FirstAlarmTakesPane(list, cur);
    hide Filled;
    if !Crowded(list, cur) {
      if Filled(list, cur).list[0] != -1 {
        LeftOverIsCrowded(list, cur);
      }
      hide Crowded;
      FilledInOrder(list, cur, i, k, x, y);
    }
  }

  /** The panes show different alarming cameras, the first alarm among them, and a pane is empty only
      when every alarm is shown. */
  predicate ShownAlready(list: seq<int>, cur: seq<int>)
    requires |list| > 0 && |cur| == 4
  {
    && (forall i :: 0 <= i < 4 && cur[i] != -1 ==> cur[i] in list)
    && (forall i, k :: 0 <= i < k < 4 && cur[i] != -1 ==> cur[i] != cur[k])
    && (list[0] != -1 ==> list[0] in cur)
    && (-1 in cur ==> forall v :: v in list && v != -1 ==> v in cur)
  }

  /** The view is brought up again unless the panes show the alarms already. */
  lemma FreshedExactly(list: seq<int>, cur: seq<int>)
    requires Distinct(list) && |list| > 0 && |cur| == 4
    ensures Freshed(list, cur) <==> !ShownAlready(list, cur)
  {
    hide Filled;
    FilledAccounts(list, cur);
    var a := Filled(list, cur);
    if ShownAlready(list, cur) {
      forall i | 0 <= i < 4
        ensures a.next[i] == cur[i]
      {}
      assert a.next == cur;
    }
  }

  lemma Smaller(a: set<int>, b: set<int>)
    requires a <= b
    ensures |a| <= |b|
  {
    assert b == a + (b - a);
  }

  /** Four different panes show as many cameras as there are panes in use. */
  lemma FourPanes(next: seq<int>)
    requires |next| == 4
    requires forall i, k :: 0 <= i < k < 4 && next[i] != -1 ==> next[i] != next[k]
    ensures |Mapped(next)| <= 4
    ensures -1 in next <==> |Mapped(next)| < 4
  {
    assert Mapped(next) + {-1} == {next[0], next[1], next[2], next[3]} + {-1};
    assert Mapped(next) == {next[0], next[1], next[2], next[3]} - {-1};
  }

  // ----- In place, as UpdateWarnInfoTimer does it

  /** The inner loop: the camera of pane i is looked up in the list and taken out of it. */
  method TakeFromList(list: array<int>, num: nat, v: int) returns (still: bool)
    requires num <= list.Length
    modifies list
    ensures var j := IndexOf(old(list[..num]), v, 0);
      still == (j >= 0) && list[..num] == if j >= 0 then old(list[..num])[j := -1] else old(list[..num])
  {
    for j := 0 to num
      invariant list[..num] == old(list[..num])
      invariant IndexOf(old(list[..num]), v, j) == IndexOf(old(list[..num]), v, 0)
    {
      if list[j] == v {
        list[j] := -1;
        return true;
      }
    }
    return false;
  }

  method KeepPanes(list: array<int>, num: nat, cur: array<int>, next: array<int>)
    requires num <= list.Length && cur.Length == 4 && next.Length == 4
    requires list != cur && list != next && cur != next
    modifies list, next
    ensures Panes(list[..num], next[..]) == Keep(old(list[..num]), cur[..], 4)
  {
    for i := 0 to 4
      invariant Panes(list[..num], next[..i]) == Keep(old(list[..num]), cur[..], i)
    {
      var still := false;
      if cur[i] != -1 {
        still := TakeFromList(list, num, cur[i]);
      }
      next[i] := if still then cur[i] else -1;
    }
    assert next[..4] == next[..];
  }

  method FillPanes(list: array<int>, num: nat, next: array<int>)
    requires num <= list.Length && next.Length == 4 && list != next
    modifies list, next
    ensures Panes(list[..num], next[..]) == Fill(old(Panes(list[..num], next[..])), 4)
  {
    for i := 0 to 4
      invariant Panes(list[..num], next[..]) == Fill(old(Panes(list[..num], next[..])), i)
    {
      if next[i] == -1 {
        ghost var before := Panes(list[..num], next[..]);
        var taken := false;
        var j := 0;
        while j < num && !taken
          invariant 0 <= j <= num
          invariant !taken ==> Panes(list[..num], next[..]) == before
          invariant !taken ==> FirstMapped(before.list, j) == FirstMapped(before.list, 0)
          invariant taken ==> Panes(list[..num], next[..]) == FillPane(before, i)
          decreases num - j, !taken
        {
          if list[j] != -1 {
            next[i] := list[j];
            list[j] := -1;
            taken := true;
          } else {
            j := j + 1;
          }
        }
      }
    }
  }

  /** The assignment part of UpdateWarnInfoTimer for two or more alarms. */
  method Assign(list: array<int>, num: nat, cur: array<int>, next: array<int>) returns (freshed: bool)
    requires 0 < num <= list.Length && cur.Length == 4 && next.Length == 4
    requires list != cur && list != next && cur != next
    modifies list, next
    ensures next[..] == Assigned(old(list[..num]), cur[..])
    ensures freshed == Freshed(old(list[..num]), cur[..])
  {
    KeepPanes(list, num, cur, next);
    FillPanes(list, num, next);
    freshed := false;
    for i := 0 to 4
      invariant freshed <==> next[..i] != cur[..i]
    {
      if next[i] != cur[i] {
        freshed := true;
      }
    }
    assert next[..4] == next[..] && cur[..4] == cur[..];
    if list[0] != -1 {
      next[0] := list[0];
      freshed := true;
    }
  }
}
