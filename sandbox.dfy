/** The sandbox extension: the sandboxing flags, the active security policy,
    the gated checks that delegate to the policy, and the walk that vets the
    `__toString` of every object about to be converted to text.

    Each call into the policy is reported in the order it was made, as the
    `asked` result of the operation that made it; a violation the policy
    raises is the `Denied`/`Failure` result, passed on unchanged. */
module Sandbox {
  import opened Values
  import opened Policies
  import opened ToStringWalk

  class SandboxExtension {
    var sandboxedGlobally: bool
    var sandboxed: bool
    var policy: Policy

    /** The flag given here is the global one; the local toggle starts off. */
    constructor (policy: Policy, sandboxed: bool := false)
      ensures this.policy == policy
      ensures sandboxedGlobally == sandboxed && !this.sandboxed
      ensures IsSandboxed() == sandboxed
    {
      this.policy := policy;
      this.sandboxedGlobally := sandboxed;
      this.sandboxed := false;
    }

    /** A global sandbox is always in effect; otherwise the local toggle
        decides. */
    function IsSandboxed(): (r: bool)
      reads this
      ensures sandboxedGlobally ==> r
      ensures !sandboxedGlobally ==> r == sandboxed
    {
      sandboxedGlobally || sandboxed
    }

    /** A global sandbox implies that sandboxing is in effect. */
    function IsSandboxedGlobally(): (r: bool)
      reads this
      ensures r ==> IsSandboxed()
    {
      sandboxedGlobally
    }

    /** The policy in force: the constructor's, or the last one set. */
    function GetSecurityPolicy(): (r: Policy)
      reads this
      ensures r == policy
    {
      policy
    }

    method EnableSandbox()
      modifies this`sandboxed
      ensures sandboxed && IsSandboxed()
      ensures sandboxedGlobally == old(sandboxedGlobally) && policy == old(policy)
      ensures old(sandboxed) ==> unchanged(this)
    {
      sandboxed := true;
    }

    /** Switches off the local toggle only: a global sandbox stays on. */
    method DisableSandbox()
      modifies this`sandboxed
      ensures !sandboxed && IsSandboxed() == sandboxedGlobally
      ensures sandboxedGlobally == old(sandboxedGlobally) && policy == old(policy)
      ensures !old(sandboxed) ==> unchanged(this)
    {
      sandboxed := false;
    }

    method SetSecurityPolicy(p: Policy)
      modifies this`policy
      ensures policy == p && GetSecurityPolicy() == p
      ensures sandboxedGlobally == old(sandboxedGlobally) && sandboxed == old(sandboxed)
      ensures IsSandboxed() == old(IsSandboxed())
    {
      policy := p;
    }

    /** Asks the policy about the given tags, filters and functions exactly
        once when sandboxed, and not at all otherwise. */
    method CheckSecurity(tags: seq<string>, filters: seq<string>, functions: seq<string>)
      returns (asked: seq<Query>, outcome: Outcome)
      ensures asked == if IsSandboxed() then [SecurityQuery(tags, filters, functions)] else []
      ensures Checked(asked, outcome) == Ask(policy, asked)
      ensures !IsSandboxed() ==> outcome == Ok
    {
      asked, outcome := [], Ok;
      if IsSandboxed() {
        asked := [SecurityQuery(tags, filters, functions)];
        outcome := policy.checkSecurity(tags, filters, functions);
      }
    }

    /** Asks the policy whether `methodName` may be called on `obj` exactly once
        when sandboxed, and not at all otherwise. */
    method CheckMethodAllowed(obj: Object, methodName: string) returns (asked: seq<Query>, outcome: Outcome)
      ensures asked == if IsSandboxed() then [MethodQuery(obj, methodName)] else []
      ensures Checked(asked, outcome) == Ask(policy, asked)
      ensures !IsSandboxed() ==> outcome == Ok
    {
      asked, outcome := [], Ok;
      if IsSandboxed() {
        asked := [MethodQuery(obj, methodName)];
        outcome := policy.checkMethodAllowed(obj, methodName);
      }
    }

    /** Asks the policy whether `property` may be read on `obj` exactly once
        when sandboxed, and not at all otherwise. */
    method CheckPropertyAllowed(obj: Object, property: string) returns (asked: seq<Query>, outcome: Outcome)
      ensures asked == if IsSandboxed() then [PropertyQuery(obj, property)] else []
      ensures Checked(asked, outcome) == Ask(policy, asked)
      ensures !IsSandboxed() ==> outcome == Ok
    {
      asked, outcome := [], Ok;
      if IsSandboxed() {
        asked := [PropertyQuery(obj, property)];
        outcome := policy.checkPropertyAllowed(obj, property);
      }
    }

    /** Vets `v` before it is converted to text. The policy is asked about
        the `__toString` of each object in Candidates(v), in order, when
        sandboxed; the first denial is raised; otherwise `v` itself is
        returned. When the slots of each array that are one PHP reference
        hold one value and no object in `v` casts to false, this decides as a
        walk over every object with `__toString` in `v` would. */
    method EnsureToStringAllowed(v: Value) returns (asked: seq<Query>, result: Result<Value>)
      ensures result.Success? ==> result.value == v
      ensures Ask(policy, ToStringChecks(IsSandboxed(), Candidates(v))) ==
        Checked(asked, if result.Success? then Ok else Denied(result.violation))
      ensures !v.Arr? ==>
        asked == if IsSandboxed() && v.Obj? && v.obj.hasToString then [MethodQuery(v.obj, ToStringMethod)] else []
      ensures !IsSandboxed() ==> asked == [] && result == Success(v)
      ensures IsSandboxed() && RefConsistent(v) && (forall o :: o in StringableLeaves(v) ==> !o.castsToFalse) ==>
        (result.Success? <==> forall o :: o in StringableLeaves(v) ==> policy.checkMethodAllowed(o, ToStringMethod).Ok?) &&
        (result.Failure? ==> Denied(result.violation) == Ask(policy, ToStringQueries(StringableLeaves(v))).outcome)
      decreases v, 1
    {
      if v.Arr? {
        var outcome;
        asked, outcome := EnsureToStringAllowedForArray(v.entries);
        result := if outcome.Ok? then Success(v) else Failure(outcome.violation);
      } else {
        asked, result := [], Success(v);
        if IsSandboxed() && v.Obj? && v.obj.hasToString {
          asked := [MethodQuery(v.obj, ToStringMethod)];
          var outcome := policy.checkMethodAllowed(v.obj, ToStringMethod);
          if outcome.Denied? {
            result := Failure(outcome.violation);
          }
        }
      }
      if IsSandboxed() && RefConsistent(v) && (forall o :: o in StringableLeaves(v) ==> !o.castsToFalse) {
        WalkDecidesAsCompleteWalk(policy, v);
        AllowedIffEachAllowed(policy, StringableLeaves(v));
      }
    }

    /** The walk over one array's entries, in iteration order, with a record
        of reference ids that is local to this array. */
    method EnsureToStringAllowedForArray(es: seq<Entry>) returns (asked: seq<Query>, outcome: Outcome)
      ensures Checked(asked, outcome) == Ask(policy, ToStringChecks(IsSandboxed(), Candidates(Arr(es))))
      decreases Arr(es), 0
    {
      var stack: set<nat> := {};
      asked, outcome := [], Ok;
      var i := 0;
      while i < |es|
        invariant 0 <= i <= |es|
        invariant stack == Scan(es, i).stack
        invariant Checked(asked, Ok) == Ask(policy, ToStringChecks(IsSandboxed(), Scan(es, i).objects))
        invariant outcome == Ok
      {
        var e := es[i];
        assert e < Arr(es);
        if Falsy(e.value) || (e.value.Arr? && e.refId.Some? && e.refId.value in stack) {
          // a falsy entry, or a nested array reached through a reference
          // already recorded in this array
          ScanSkips(es, i);
        } else {
          ScanTakes(es, i);
          var more, ended;
          if !e.value.Arr? {
            var result;
            more, result := EnsureToStringAllowed(e.value);
            ended := if result.Success? then Ok else Denied(result.violation);
          } else {
            if e.refId.Some? {
              stack := stack + {e.refId.value};
            }
            more, ended := EnsureToStringAllowedForArray(e.value.entries);
          }
          WalkEntry(policy, IsSandboxed(), es, i, asked, more, ended);
          asked := asked + more;
          if ended.Denied? {
            outcome := ended;
            return;
          }
        }
        i := i + 1;
      }
    }
  }
}
