/** What the `__toString` walk over a value asks the policy about, stated as
    functions: the objects it checks, in the order it checks them, when no
    check is denied. The walk skips falsy entries, hands every other non-array
    entry to the leaf check, and descends into nested arrays except a slot
    that is a PHP reference whose id it already recorded while walking the
    SAME array: the record of reference ids starts empty for every array. */
module ToStringWalk {
  import opened Values
  import opened Policies

  const ToStringMethod: string := "__toString"

  /** The state of the walk over one array after some of its entries: the
      objects checked so far and the reference ids recorded so far. */
  datatype ScanState = ScanState(objects: seq<Object>, stack: set<nat>)

  /** Objects whose `__toString` the walk over `v` checks, in order. Each of
      them has `__toString`. */
  function Candidates(v: Value): (r: seq<Object>)
    ensures forall o :: o in r ==> o.hasToString
    decreases v, 1
  {
    match v
    case Obj(o) => if o.hasToString then [o] else []
    case Arr(es) => Scan(es, |es|).objects
    case _ => []
  }

  /** The walk over the first `n` entries of one array. It only ever checks
      objects with `__toString`. */
  function Scan(es: seq<Entry>, n: nat): (r: ScanState)
    requires n <= |es|
    ensures forall o :: o in r.objects ==> o.hasToString
    decreases Arr(es), 0, n
  {
    if n == 0 then ScanState([], {})
    else
      var s := Scan(es, n - 1);
      var e := es[n - 1];
      assert e < Arr(es);
      if Falsy(e.value) then s
      else if !e.value.Arr? then ScanState(s.objects + Candidates(e.value), s.stack)
      else if e.refId.Some? && e.refId.value in s.stack then s
      else
        ScanState(s.objects + Candidates(e.value),
                  if e.refId.Some? then s.stack + {e.refId.value} else s.stack)
  }

  /** One more entry that the walk skips: a falsy one, or a nested array
      reached through a reference already recorded. */
  lemma ScanSkips(es: seq<Entry>, i: nat)
    requires i < |es|
    requires Falsy(es[i].value) ||
      (es[i].value.Arr? && es[i].refId.Some? && es[i].refId.value in Scan(es, i).stack)
    ensures Scan(es, i + 1) == Scan(es, i)
  {
  }

  /** One more entry that the walk checks or descends into: its checks come
      after the earlier ones, and its reference, if any, is recorded when it
      is a nested array. */
  lemma ScanTakes(es: seq<Entry>, i: nat)
    requires i < |es|
    requires !Falsy(es[i].value)
    requires !(es[i].value.Arr? && es[i].refId.Some? && es[i].refId.value in Scan(es, i).stack)
    ensures Scan(es, i + 1).objects == Scan(es, i).objects + Candidates(es[i].value)
    ensures Scan(es, i + 1).stack ==
      if es[i].value.Arr? && es[i].refId.Some? then Scan(es, i).stack + {es[i].refId.value} else Scan(es, i).stack
  {
  }

  /** Entry `e` is one whose reference id the walk records: a non-falsy
      nested array held through the PHP reference `r`. */
  predicate Records(e: Entry, r: nat) {
    !Falsy(e.value) && e.value.Arr? && e.refId == Some(r)
  }

  /** The `__toString` checks for a sequence of objects, in order. */
  function ToStringQueries(objs: seq<Object>): (qs: seq<Query>)
    ensures |qs| == |objs|
    ensures forall i :: 0 <= i < |objs| ==> qs[i] == MethodQuery(objs[i], ToStringMethod)
  {
    if objs == [] then [] else ToStringQueries(objs[..|objs| - 1]) + [MethodQuery(objs[|objs| - 1], ToStringMethod)]
  }

  lemma ToStringQueriesAppend(a: seq<Object>, b: seq<Object>)
    ensures ToStringQueries(a + b) == ToStringQueries(a) + ToStringQueries(b)
  {
  }

  /** The `__toString` checks the walk over `objs` makes: all of them when
      sandboxed, none otherwise. */
  function ToStringChecks(sandboxed: bool, objs: seq<Object>): seq<Query>
  {
    if sandboxed then ToStringQueries(objs) else []
  }

  /** The checks for an entry the walk hands to the leaf check or descends
      into follow the checks so far, and a denial among them is the denial
      of the walk over the whole array. */
  lemma WalkEntry(p: Policy, on: bool, es: seq<Entry>, i: nat, asked: seq<Query>, more: seq<Query>, ended: Outcome)
    requires i < |es|
    requires Scan(es, i + 1).objects == Scan(es, i).objects + Candidates(es[i].value)
    requires Checked(asked, Ok) == Ask(p, ToStringChecks(on, Scan(es, i).objects))
    requires Ask(p, ToStringChecks(on, Candidates(es[i].value))) == Checked(more, ended)
    ensures Ask(p, ToStringChecks(on, Scan(es, i + 1).objects)) == Checked(asked + more, ended)
    ensures ended.Denied? ==> Ask(p, ToStringChecks(on, Candidates(Arr(es)))) == Checked(asked + more, ended)
  {
    WalkStep(p, on, Scan(es, i).objects, Candidates(es[i].value));
    if ended.Denied? {
      WalkStopsEarly(p, on, es, i + 1);
    }
  }

  /** Continuing the checks of `before` with those of `next`, once all of
      `before` passed. */
  lemma WalkStep(p: Policy, on: bool, before: seq<Object>, next: seq<Object>)
    requires Ask(p, ToStringChecks(on, before)).outcome.Ok?
    ensures Ask(p, ToStringChecks(on, before + next)) ==
      Checked(Ask(p, ToStringChecks(on, before)).asked + Ask(p, ToStringChecks(on, next)).asked,
              Ask(p, ToStringChecks(on, next)).outcome)
  {
    if on {
      ToStringQueriesAppend(before, next);
      AskAppend(p, ToStringQueries(before), ToStringQueries(next));
    } else {
      assert Ask(p, []).asked + Ask(p, []).asked == [];
    }
  }

  /** A denial among the checks of the first `n` entries is the denial of
      the walk over the whole array. */
  lemma WalkStopsEarly(p: Policy, on: bool, es: seq<Entry>, n: nat)
    requires n <= |es|
    requires Ask(p, ToStringChecks(on, Scan(es, n).objects)).outcome.Denied?
    ensures Ask(p, ToStringChecks(on, Candidates(Arr(es)))) == Ask(p, ToStringChecks(on, Scan(es, n).objects))
  {
    var before, all := Scan(es, n).objects, Scan(es, |es|).objects;
    ScanExtends(es, n, |es|);
    var rest := all[|before|..];
    assert all == before + rest;
    ToStringQueriesAppend(before, rest);
    AskDeniedPrefix(p, ToStringChecks(on, before), ToStringChecks(on, all));
  }

  /** The reference ids recorded after `n` entries of an array are exactly
      those of the recorded kind of entry among them: the set starts empty
      for each array and only this array's entries add to it. */
  lemma {:induction false} ScanStackIsRecordedRefs(es: seq<Entry>, n: nat, r: nat)
    requires n <= |es|
    ensures r in Scan(es, n).stack <==> exists k :: 0 <= k < n && Records(es[k], r)
  {
    if n > 0 {
      ScanStackIsRecordedRefs(es, n - 1, r);
      var e := es[n - 1];
      if Records(e, r) && r !in Scan(es, n - 1).stack {
        assert r in Scan(es, n).stack;
      }
      if (exists k :: 0 <= k < n && Records(es[k], r)) && !Records(e, r) {
        var k :| 0 <= k < n && Records(es[k], r);
        assert k < n - 1;
      }
    }
  }

  /** Within one array, a nested array that is a PHP reference already
      recorded earlier in that array is skipped: it adds no check. */
  lemma RepeatedReferenceIsSkipped(es: seq<Entry>, k: nat, j: nat, r: nat)
    requires k < j < |es|
    requires Records(es[k], r) && Records(es[j], r)
    ensures Scan(es, j + 1) == Scan(es, j)
  {
    ScanStackIsRecordedRefs(es, j, r);
  }

  /** The walk checks only objects that have `__toString`, and it checks them
      in the depth-first iteration order of `v`: its checks are a subsequence
      of the complete list of such objects. */
  lemma {:induction false} CandidatesFollowIterationOrder(v: Value)
    ensures IsSubsequence(Candidates(v), StringableLeaves(v))
    decreases v, 1
  {
    match v
    case Arr(es) => ScanFollowsIterationOrder(es, |es|);
    case Obj(o) =>
      if o.hasToString {
        assert IsSubsequence([o][..0], [o][..0]);
      }
    case _ =>
  }

  lemma {:induction false} ScanFollowsIterationOrder(es: seq<Entry>, n: nat)
    requires n <= |es|
    ensures IsSubsequence(Scan(es, n).objects, EntriesLeaves(es, n))
    decreases Arr(es), 0, n
  {
    if n > 0 {
      var e := es[n - 1];
      assert e < Arr(es);
      ScanFollowsIterationOrder(es, n - 1);
      var s := Scan(es, n - 1);
      if Falsy(e.value) || (e.value.Arr? && e.refId.Some? && e.refId.value in s.stack) {
        SubsequenceExtend(s.objects, EntriesLeaves(es, n - 1), StringableLeaves(e.value));
      } else {
        CandidatesFollowIterationOrder(e.value);
        SubsequenceConcat(s.objects, EntriesLeaves(es, n - 1), Candidates(e.value), StringableLeaves(e.value));
      }
    }
  }

  /** The walk over more entries of an array only adds checks at the end. */
  lemma {:induction false} ScanExtends(es: seq<Entry>, n: nat, m: nat)
    requires n <= m <= |es|
    ensures Scan(es, n).objects <= Scan(es, m).objects
    decreases m
  {
    if n < m {
      ScanExtends(es, n, m - 1);
      assert Scan(es, m - 1).objects <= Scan(es, m).objects;
    }
  }

  /** The first entry of an array that records reference `r`: when `r` is
      recorded after `n` entries, some entry `k` before them recorded it while
      `r` was not yet recorded, so the walk descended into it. */
  lemma {:induction false} FirstRecord(es: seq<Entry>, n: nat, r: nat)
    requires n <= |es|
    requires r in Scan(es, n).stack
    ensures exists k :: (0 <= k < n && Records(es[k], r) && r !in Scan(es, k).stack &&
      Scan(es, k + 1).objects == Scan(es, k).objects + Candidates(es[k].value))
  {
    if r in Scan(es, n - 1).stack {
      FirstRecord(es, n - 1, r);
    } else {
      assert Records(es[n - 1], r);
    }
  }

  /** `c` is `l` with some elements left out, order kept, where every element
      left out is an object already in `c` at that point or one that casts to
      false. */
  predicate ChecksAllBut(c: seq<Object>, l: seq<Object>)
    decreases |l|
  {
    if l == [] then c == []
    else
      var x := l[|l| - 1];
      (c != [] && c[|c| - 1] == x && ChecksAllBut(c[..|c| - 1], l[..|l| - 1])) ||
      ((x in c || x.castsToFalse) && ChecksAllBut(c, l[..|l| - 1]))
  }

  lemma {:induction false} ChecksAllButConcat(c1: seq<Object>, l1: seq<Object>, c2: seq<Object>, l2: seq<Object>)
    requires ChecksAllBut(c1, l1) && ChecksAllBut(c2, l2)
    ensures ChecksAllBut(c1 + c2, l1 + l2)
    decreases |l2|
  {
    if l2 == [] {
      assert c1 + c2 == c1 && l1 + l2 == l1;
    } else {
      var x := l2[|l2| - 1];
      var l2' := l2[..|l2| - 1];
      assert (l1 + l2)[..|l1 + l2| - 1] == l1 + l2';
      if c2 != [] && c2[|c2| - 1] == x && ChecksAllBut(c2[..|c2| - 1], l2') {
        ChecksAllButConcat(c1, l1, c2[..|c2| - 1], l2');
        assert (c1 + c2)[..|c1 + c2| - 1] == c1 + c2[..|c2| - 1];
      } else {
        ChecksAllButConcat(c1, l1, c2, l2');
      }
    }
  }

  lemma {:induction false} ChecksAllButExtend(c: seq<Object>, l: seq<Object>, extra: seq<Object>)
    requires ChecksAllBut(c, l)
    requires forall x :: x in extra ==> x in c || x.castsToFalse
    ensures ChecksAllBut(c, l + extra)
    decreases |extra|
  {
    if extra == [] {
      assert l + extra == l;
    } else {
      ChecksAllButExtend(c, l, extra[..|extra| - 1]);
      assert (l + extra)[..|l + extra| - 1] == l + extra[..|extra| - 1];
    }
  }

  /** Every element of `l` that does not cast to false is in `c`. */
  lemma {:induction false} ChecksAllButCovers(c: seq<Object>, l: seq<Object>)
    requires ChecksAllBut(c, l)
    ensures forall x :: x in l && !x.castsToFalse ==> x in c
    decreases |l|
  {
    if l != [] {
      var l' := l[..|l| - 1];
      assert l == l' + [l[|l| - 1]];
      if c != [] && c[|c| - 1] == l[|l| - 1] && ChecksAllBut(c[..|c| - 1], l') {
        ChecksAllButCovers(c[..|c| - 1], l');
        assert c == c[..|c| - 1] + [c[|c| - 1]];
      } else {
        ChecksAllButCovers(c, l');
      }
    }
  }

  /** When nothing in `l` casts to false, checking `c` ends exactly as
      checking `l` would: Ok, or the same violation. */
  lemma {:induction false} ChecksAllButOutcome(p: Policy, c: seq<Object>, l: seq<Object>)
    requires ChecksAllBut(c, l)
    requires forall x :: x in l ==> !x.castsToFalse
    ensures Ask(p, ToStringQueries(c)).outcome == Ask(p, ToStringQueries(l)).outcome
    decreases |l|
  {
    if l != [] {
      var x := l[|l| - 1];
      var l' := l[..|l| - 1];
      var q := MethodQuery(x, ToStringMethod);
      assert l == l' + [x];
      assert ToStringQueries(l) == ToStringQueries(l') + [q];
      AskAppend(p, ToStringQueries(l'), [q]);
      if c != [] && c[|c| - 1] == x && ChecksAllBut(c[..|c| - 1], l') {
        var c' := c[..|c| - 1];
        ChecksAllButOutcome(p, c', l');
        assert ToStringQueries(c) == ToStringQueries(c') + [q];
        AskAppend(p, ToStringQueries(c'), [q]);
      } else {
        ChecksAllButOutcome(p, c, l');
        if Ask(p, ToStringQueries(c)).outcome.Ok? {
          AskOkIffAllAllowed(p, ToStringQueries(c));
          var i :| 0 <= i < |c| && c[i] == x;
          assert ToStringQueries(c)[i] == q;
        }
      }
    }
  }

  /** Whether every object of `objs` may have `__toString` called: the
      checks of `objs` pass precisely when the policy allows each one. */
  lemma AllowedIffEachAllowed(p: Policy, objs: seq<Object>)
    ensures Ask(p, ToStringQueries(objs)).outcome.Ok? <==>
      forall o :: o in objs ==> p.checkMethodAllowed(o, ToStringMethod).Ok?
  {
    var qs := ToStringQueries(objs);
    AskOkIffAllAllowed(p, qs);
    if Ask(p, qs).outcome.Ok? {
      forall o | o in objs ensures p.checkMethodAllowed(o, ToStringMethod).Ok? {
        var i :| 0 <= i < |objs| && objs[i] == o;
        assert Answer(p, qs[i]).Ok?;
      }
    } else {
      var i :| 0 <= i < |qs| && !Answer(p, qs[i]).Ok?;
      assert objs[i] in objs;
    }
  }

  /** When the slots of each array that are one PHP reference hold one value,
      the walk leaves out only objects it already checked and objects that
      cast to false (a falsy entry is skipped even when it is such an object). */
  lemma {:induction false} CandidatesChecksAllBut(v: Value)
    requires RefConsistent(v)
    ensures ChecksAllBut(Candidates(v), StringableLeaves(v))
    decreases v, 1
  {
    match v
    case Arr(es) => ScanChecksAllBut(es, |es|);
    case Obj(o) =>
      if o.hasToString {
        assert [o][..0] == [];
      }
    case _ =>
  }

  lemma {:induction false} ScanChecksAllBut(es: seq<Entry>, n: nat)
    requires n <= |es|
    requires RefConsistent(Arr(es))
    ensures ChecksAllBut(Scan(es, n).objects, EntriesLeaves(es, n))
    decreases Arr(es), 0, n
  {
    if n > 0 {
      var e := es[n - 1];
      assert e < Arr(es);
      ScanChecksAllBut(es, n - 1);
      assert EntriesLeaves(es, n) == EntriesLeaves(es, n - 1) + StringableLeaves(e.value);
      if Falsy(e.value) || (e.value.Arr? && e.refId.Some? && e.refId.value in Scan(es, n - 1).stack) {
        ScanSkips(es, n - 1);
        SkippedEntryHidesNothing(es, n - 1);
        ChecksAllButExtend(Scan(es, n - 1).objects, EntriesLeaves(es, n - 1), StringableLeaves(e.value));
      } else {
        ScanTakes(es, n - 1);
        assert RefConsistent(e.value);
        CandidatesChecksAllBut(e.value);
        ChecksAllButConcat(Scan(es, n - 1).objects, EntriesLeaves(es, n - 1), Candidates(e.value), StringableLeaves(e.value));
      }
    }
  }

  /** An entry the walk skips holds nothing new: a falsy entry holds at most
      itself, an object that casts to false, and every object in a nested
      array skipped as an already recorded reference was checked before, when
      the walk descended into the first slot of that reference, or casts to
      false. */
  lemma {:induction false} SkippedEntryHidesNothing(es: seq<Entry>, n: nat)
    requires n < |es|
    requires RefConsistent(Arr(es))
    requires Falsy(es[n].value) ||
      (es[n].value.Arr? && es[n].refId.Some? && es[n].refId.value in Scan(es, n).stack)
    ensures forall x :: x in StringableLeaves(es[n].value) ==> x in Scan(es, n).objects || x.castsToFalse
    decreases Arr(es), 0, n
  {
    if !Falsy(es[n].value) {
      var e := es[n];
      assert e < Arr(es);
      var r := e.refId.value;
      FirstRecord(es, n, r);
      var k :| 0 <= k < n && Records(es[k], r) && r !in Scan(es, k).stack &&
        Scan(es, k + 1).objects == Scan(es, k).objects + Candidates(es[k].value);
      assert es[k].value == e.value by {
        assert es[k].refId == es[n].refId;
      }
      var c, seen := Candidates(e.value), Scan(es, n).objects;
      assert forall x :: x in c ==> x in Scan(es, k + 1).objects;
      ScanExtends(es, k + 1, n);
      assert forall x :: x in c ==> x in seen;
      assert RefConsistent(e.value);
      CandidatesChecksAllBut(e.value);
      ChecksAllButCovers(c, StringableLeaves(e.value));
    }
  }

  /** Completeness of the walk: when the slots of each array that are one PHP
      reference hold one value, every object with `__toString` in `v` is
      checked, except one that casts to false and sits in an array slot. */
  lemma CandidatesCoverStringable(v: Value)
    requires RefConsistent(v)
    ensures forall o :: o in StringableLeaves(v) && !o.castsToFalse ==> o in Candidates(v)
  {
    CandidatesChecksAllBut(v);
    ChecksAllButCovers(Candidates(v), StringableLeaves(v));
  }

  /** The walk decides as a complete walk would: when the slots of each array
      that are one PHP reference hold one value and no object in `v` casts to
      false, checking `Candidates(v)` ends Ok, or with the same violation, as
      checking every object with `__toString` in `v`, in iteration order, one
      by one; so the violation raised is the policy's answer for the earliest
      denied object of `StringableLeaves(v)`. */
  lemma WalkDecidesAsCompleteWalk(p: Policy, v: Value)
    requires RefConsistent(v)
    requires forall o :: o in StringableLeaves(v) ==> !o.castsToFalse
    ensures Ask(p, ToStringQueries(Candidates(v))).outcome == Ask(p, ToStringQueries(StringableLeaves(v))).outcome
  {
    CandidatesChecksAllBut(v);
    ChecksAllButOutcome(p, Candidates(v), StringableLeaves(v));
  }

  /** An object that casts to false is checked when it is the value itself,
      but skipped as a falsy entry when it sits in an array slot. */
  lemma FalsyObjectInArrayIsSkipped(o: Object)
    requires o.hasToString && o.castsToFalse
    ensures Candidates(Obj(o)) == [o]
    ensures Candidates(Arr([Entry(IntKey(0), Obj(o), None)])) == []
    ensures StringableLeaves(Arr([Entry(IntKey(0), Obj(o), None)])) == [o]
  {
    var es := [Entry(IntKey(0), Obj(o), None)];
    assert Scan(es, 1) == Scan(es, 0);
    assert EntriesLeaves(es, 1) == EntriesLeaves(es, 0) + [o];
  }

  /** When the `__toString` checks of `objs` end in a denial, the violation
      is the policy's answer for the earliest denied object `objs[k]`: every
      object before it was allowed, and nothing after it was asked. */
  lemma FirstDeniedObject(p: Policy, objs: seq<Object>)
    requires Ask(p, ToStringQueries(objs)).outcome.Denied?
    ensures exists k :: (0 <= k < |objs| &&
      Ask(p, ToStringQueries(objs)) ==
        Checked(ToStringQueries(objs[..k + 1]), p.checkMethodAllowed(objs[k], ToStringMethod)) &&
      forall j :: 0 <= j < k ==> p.checkMethodAllowed(objs[j], ToStringMethod).Ok?)
  {
    var qs := ToStringQueries(objs);
    var r := Ask(p, qs);
    AskStopsAtFirstDenial(p, qs);
    var k := |r.asked| - 1;
    assert r.asked == qs[..k + 1];
    assert Answer(p, r.asked[k]) == r.outcome;
    assert r.asked[k] == MethodQuery(objs[k], ToStringMethod);
    assert ToStringQueries(objs[..k + 1]) == r.asked;
    forall j | 0 <= j < k ensures p.checkMethodAllowed(objs[j], ToStringMethod).Ok? {
      assert Answer(p, r.asked[j]).Ok?;
    }
    assert r == Checked(ToStringQueries(objs[..k + 1]), p.checkMethodAllowed(objs[k], ToStringMethod));
  }

  /** The record of reference ids belongs to one array: a reference already
      walked in an outer array is walked again when it turns up inside a
      nested array. Here the array `inner` is held twice through the same
      reference 7, once directly and once one level down, and its object is
      checked twice. */
  lemma ReferenceRecordIsPerArray(o: Object)
    requires o.hasToString && !o.castsToFalse
    ensures
      var inner := Arr([Entry(IntKey(0), Obj(o), None)]);
      var outer := Arr([Entry(IntKey(0), inner, Some(7)),
                        Entry(IntKey(1), Arr([Entry(IntKey(0), inner, Some(7))]), None)]);
      Candidates(outer) == [o, o]
  {
    var ie := [Entry(IntKey(0), Obj(o), None)];
    var inner := Arr(ie);
    assert Scan(ie, 1) == ScanState([o], {});
    var ne := [Entry(IntKey(0), inner, Some(7))];
    assert Scan(ne, 1) == ScanState([o], {7});
    var oe := [Entry(IntKey(0), inner, Some(7)), Entry(IntKey(1), Arr(ne), None)];
    assert Scan(oe, 1) == ScanState([o], {7});
    assert Scan(oe, 2) == ScanState([o, o], {7});
  }
}
