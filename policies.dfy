/** The security policy the sandbox consults. Concrete policies are outside
    this model: a policy is any three total decision functions, one per check
    of the policy interface, each either allowing the call or raising a
    violation. */
module Policies {
  import opened Values

  /** The violation family a policy raises. */
  datatype Violation =
    | NotAllowedTag(tag: string)
    | NotAllowedFilter(filter: string)
    | NotAllowedFunction(func: string)
    | NotAllowedMethod(target: Object, methodName: string)
    | NotAllowedProperty(target: Object, property: string)

  /** A check either returns normally (Ok) or raises a violation. */
  datatype Outcome = Ok | Denied(violation: Violation)

  /** What a call that returns a value yields: the value, or a raised violation. */
  datatype Result<+T> = Success(value: T) | Failure(violation: Violation)

  datatype Policy = Policy(
    checkSecurity: (seq<string>, seq<string>, seq<string>) -> Outcome,
    checkMethodAllowed: (Object, string) -> Outcome,
    checkPropertyAllowed: (Object, string) -> Outcome)

  /** One call into the policy, with its arguments. */
  datatype Query =
    | SecurityQuery(tags: seq<string>, filters: seq<string>, functions: seq<string>)
    | MethodQuery(obj: Object, methodName: string)
    | PropertyQuery(obj: Object, property: string)

  function Answer(p: Policy, q: Query): Outcome {
    match q
    case SecurityQuery(t, f, fn) => p.checkSecurity(t, f, fn)
    case MethodQuery(o, m) => p.checkMethodAllowed(o, m)
    case PropertyQuery(o, m) => p.checkPropertyAllowed(o, m)
  }

  /** The policy calls actually made, in order, and how the caller ended. */
  datatype Checked = Checked(asked: seq<Query>, outcome: Outcome)

  /** Put the queries `qs` to `p` one after the other, as straight-line code
      with no exception handler does: the first denial is raised and nothing
      after it is asked. What is asked is a prefix of `qs`, all of it when
      nothing is denied. */
  function Ask(p: Policy, qs: seq<Query>): (r: Checked)
    ensures r.asked <= qs
    ensures r.outcome.Ok? ==> r.asked == qs
  {
    if qs == [] then Checked([], Ok)
    else match Answer(p, qs[0])
      case Denied(v) => Checked([qs[0]], Denied(v))
      case Ok =>
        var rest := Ask(p, qs[1..]);
        assert qs == [qs[0]] + qs[1..];
        Checked([qs[0]] + rest.asked, rest.outcome)
  }

  /** Asking stops exactly at the first denied query: on a denial, the
      violation is the policy's own answer to the last query asked, passed on
      unchanged, and every query asked before that one was allowed. */
  lemma {:induction false} AskStopsAtFirstDenial(p: Policy, qs: seq<Query>)
    ensures Ask(p, qs).outcome.Denied? ==>
      Ask(p, qs).asked != [] && Answer(p, Ask(p, qs).asked[|Ask(p, qs).asked| - 1]) == Ask(p, qs).outcome
    ensures Ask(p, qs).outcome.Denied? ==>
      forall i :: 0 <= i < |Ask(p, qs).asked| - 1 ==> Answer(p, Ask(p, qs).asked[i]).Ok?
  {
    if qs != [] && Answer(p, qs[0]).Ok? {
      AskStopsAtFirstDenial(p, qs[1..]);
      var rest := Ask(p, qs[1..]);
      var asked := Ask(p, qs).asked;
      assert asked == [qs[0]] + rest.asked;
      if rest.outcome.Denied? {
        forall i | 1 <= i < |asked| - 1 ensures Answer(p, asked[i]).Ok? {
          assert asked[i] == rest.asked[i - 1];
        }
      }
    }
  }

  /** The outcome is Ok precisely when the policy allows every query. */
  lemma {:induction false} AskOkIffAllAllowed(p: Policy, qs: seq<Query>)
    ensures Ask(p, qs).outcome.Ok? <==> forall i :: 0 <= i < |qs| ==> Answer(p, qs[i]).Ok?
  {
    if qs != [] {
      AskOkIffAllAllowed(p, qs[1..]);
      if Answer(p, qs[0]).Ok? {
        if Ask(p, qs[1..]).outcome.Ok? {
          forall i | 1 <= i < |qs| ensures Answer(p, qs[i]).Ok? {
            assert qs[i] == qs[1..][i - 1];
          }
        } else {
          var i :| 0 <= i < |qs[1..]| && !Answer(p, qs[1..][i]).Ok?;
          assert !Answer(p, qs[i + 1]).Ok?;
        }
      }
    }
  }

  /** Asking a concatenation: the second part is asked only if the first part
      passed completely. */
  lemma {:induction false} AskAppend(p: Policy, a: seq<Query>, b: seq<Query>)
    ensures Ask(p, a).outcome.Denied? ==> Ask(p, a + b) == Ask(p, a)
    ensures Ask(p, a).outcome.Ok? ==>
      Ask(p, a + b) == Checked(a + Ask(p, b).asked, Ask(p, b).outcome)
  {
    if a == [] {
      assert a + b == b;
    } else {
      assert (a + b)[0] == a[0];
      assert (a + b)[1..] == a[1..] + b;
      AskAppend(p, a[1..], b);
      if Answer(p, a[0]).Ok? && Ask(p, a).outcome.Ok? {
        assert [a[0]] + (a[1..] + Ask(p, b).asked) == a + Ask(p, b).asked;
      }
    }
  }

  /** Once the queries `a` end in a denial, asking more queries after them
      changes nothing. */
  lemma AskDeniedPrefix(p: Policy, a: seq<Query>, b: seq<Query>)
    requires a <= b
    requires Ask(p, a).outcome.Denied?
    ensures Ask(p, b) == Ask(p, a)
  {
    AskAppend(p, a, b[|a|..]);
    assert b == a + b[|a|..];
  }
}
