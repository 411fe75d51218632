# Twig sandbox extension in Dafny

This project models the runtime guard of Twig's sandbox, `SandboxExtension`.
It covers four things:

- the two sandboxing flags;
- the active security policy;
- the three gated checks that pass their arguments to the policy only while sandboxing is on;
- `ensureToStringAllowed`. This is the walk that, before a value is converted to text, asks the policy, while sandboxed, about `__toString` for the objects in that value that have it, nested ones included. It skips falsy array entries (an object that casts to false among them) and nested arrays reached again through a reference already recorded in the same array.

The model is split into four modules:

- `Values` (`values.dfy`): PHP values as finite trees. Scalars, objects and ordered arrays. An object is an id, whether it has `__toString`, and whether it casts to false (PHP lets a few internal classes do so; an empty `SimpleXMLElement` is one and also has `__toString`). Each array entry records the key, the value, and the reference id that `ReflectionReference::fromArrayElement` would report for the slot (`None` for a plain value). The module also holds `Falsy` (PHP's `!$v`), `StringableLeaves` (the complete depth-first list of objects with `__toString`) and `RefConsistent` (slots of one array that are the same PHP reference hold the same value, as they must in PHP).
- `Policies` (`policies.dfy`): the security policy as three total decision functions, one per method of the policy interface. Each either allows the call (`Ok`) or raises a violation (`Denied`). `Ask` puts a sequence of policy calls in order and stops at the first denial. This is how straight-line PHP code with no `try` behaves.
- `ToStringWalk` (`tostring_walk.dfy`): the specification of the walk. `Candidates(v)` lists the objects whose `__toString` the walk checks, in order. `Scan` is the walk over one array's entries, with its record (`stack`) of reference ids. The lemmas about the walk live here too, among them its completeness: the walk leaves out only objects it already checked and objects that cast to false, so on a value with no such object it decides as a walk over every object with `__toString` would.
- `Sandbox` (`sandbox.dfy`): the class `SandboxExtension`. It has the fields `sandboxedGlobally`, `sandboxed` and `policy`, the methods that change them, and the checks and the walk as methods. The array walk is a loop over the entries, with a local `stack` set, and it recurses into nested arrays.

The PHP code calls the policy and lets any exception escape. The model makes those calls observable: every check and the walk return `asked`, the policy calls actually made, in order. A raised violation comes back as `Denied(v)` or `Failure(v)`. The contracts tie the result and `asked` to `Ask(policy, …)` of a specification list. That list is `[the one query]` for a gated check, or the `__toString` queries of `Candidates(v)` for the walk. When the extension is not sandboxed, the list is empty.

## Model

| member | source | states |
|---|---|---|
| `Sandbox.SandboxExtension.constructor` | src/Extension/SandboxExtension.php:23-31 | the given flag becomes the global flag; the local toggle starts off; the given policy is the active one; so `IsSandboxed()` equals the global flag |
| `Sandbox.SandboxExtension.IsSandboxed` | src/Extension/SandboxExtension.php:53-56 | a global sandbox is always in effect; without one, the local toggle alone decides |
| `Sandbox.SandboxExtension.IsSandboxedGlobally` | src/Extension/SandboxExtension.php:58-61 | a global sandbox implies that sandboxing is in effect |
| `Sandbox.SandboxExtension.GetSecurityPolicy` | src/Extension/SandboxExtension.php:68-71 | returns the active policy; only the constructor and `SetSecurityPolicy` (the only frames that include `policy`) set it |
| `Sandbox.SandboxExtension.EnableSandbox` | src/Extension/SandboxExtension.php:43-46 | only `sandboxed` changes (its frame is the one field `sandboxed`); afterwards `IsSandboxed()` holds; enabling when already enabled changes nothing |
| `Sandbox.SandboxExtension.DisableSandbox` | src/Extension/SandboxExtension.php:48-51 | only `sandboxed` changes; afterwards `IsSandboxed()` equals `sandboxedGlobally`, so a global sandbox cannot be switched off; the global flag and policy are untouched; disabling when already disabled changes nothing |
| `Sandbox.SandboxExtension.SetSecurityPolicy` | src/Extension/SandboxExtension.php:63-66 | only `policy` changes, and `GetSecurityPolicy()` then returns the new policy; both flags and `IsSandboxed()` are unchanged |
| `Sandbox.SandboxExtension.CheckSecurity` | src/Extension/SandboxExtension.php:73-78 | the policy's `checkSecurity` is called exactly once with the unchanged tags, filters and functions if `IsSandboxed()`, and never otherwise; its outcome, a violation included, is returned unchanged; not sandboxed means Ok |
| `Sandbox.SandboxExtension.CheckMethodAllowed` | src/Extension/SandboxExtension.php:80-85 | the same gating and pass-through for `checkMethodAllowed(obj, method)` |
| `Sandbox.SandboxExtension.CheckPropertyAllowed` | src/Extension/SandboxExtension.php:87-92 | the same gating and pass-through for `checkPropertyAllowed(obj, property)` |
| `Sandbox.SandboxExtension.EnsureToStringAllowed` | src/Extension/SandboxExtension.php:94-106 | a normal return gives back `v` itself, for arrays and non-arrays alike; the policy calls are exactly `Ask` of the `__toString` queries for `Candidates(v)` when sandboxed, ending at the first denial, whose violation is raised; for a non-array this is one call iff `v` is an object with `__toString`; when not sandboxed, no call is made for any input, however deeply nested; when sandboxed, on a reference-consistent value with no object that casts to false, it returns normally iff the policy allows `__toString` on every object of `StringableLeaves(v)`, and a raised violation is the one a complete walk over `StringableLeaves(v)` would raise |
| `Sandbox.SandboxExtension.EnsureToStringAllowedForArray` | src/Extension/SandboxExtension.php:113-152 | the loop over the entries makes exactly the policy calls of `Ask` over the `__toString` queries of `Scan` over all the entries, in iteration order, depth first, and stops at the first denial; the loop invariant ties the local `stack` to `Scan(es, i).stack` |
| `Policies.Ask` | src/Extension/SandboxExtension.php:113-151 | asking in order with no exception handler: what is asked is a prefix of the calls due, all of them when nothing is denied |
| `Policies.AskStopsAtFirstDenial` | src/Extension/SandboxExtension.php:115-151 | on a denial, every call before the last was allowed and the violation is the policy's answer to the last call, unchanged |
| `Policies.AskOkIffAllAllowed` | src/Extension/SandboxExtension.php:94-106 | the walk returns normally iff the policy allows every call due |
| `Policies.AskAppend` | src/Extension/SandboxExtension.php:120-150 | the calls for later entries are made only if every call for earlier entries passed; a denial is final |
| `Policies.AskDeniedPrefix` | src/Extension/SandboxExtension.php:115-151 | once the calls made so far end in a denial, the calls due after them change nothing |
| `Values.Falsy` | src/Extension/SandboxExtension.php:116-118 | null, false, 0, "", "0", the empty array and an object that casts to false are falsy; a falsy value holds no object with `__toString` other than, possibly, itself |
| `Values.StringableLeaves` | src/Extension/SandboxExtension.php:96-122 | the complete depth-first list of objects in a value contains only objects that have `__toString` |
| `ToStringWalk.Candidates` | src/Extension/SandboxExtension.php:94-151 | the walk over a value checks only objects that have `__toString` |
| `ToStringWalk.Scan` | src/Extension/SandboxExtension.php:115-150 | the walk over the first `n` entries of an array checks only objects that have `__toString` |
| `ToStringWalk.ScanSkips` | src/Extension/SandboxExtension.php:115-145 | a falsy entry, or a nested array reached through a reference already recorded in the same array, leaves the walk's state unchanged |
| `ToStringWalk.ScanTakes` | src/Extension/SandboxExtension.php:120-150 | any other entry appends its own checks after those made so far, and a nested array held through a reference records that reference |
| `ToStringWalk.ScanExtends` | src/Extension/SandboxExtension.php:115-151 | walking more entries of an array only appends checks |
| `ToStringWalk.FirstRecord` | src/Extension/SandboxExtension.php:142-150 | a reference recorded in an array was recorded by an entry the walk descended into, at a point where it was not yet recorded |
| `ToStringWalk.WalkEntry` | src/Extension/SandboxExtension.php:120-150 | the checks for an entry the walk takes follow the checks so far, and a denial among them is the denial of the walk over the whole array |
| `ToStringWalk.WalkStopsEarly` | src/Extension/SandboxExtension.php:115-151 | a denial among the checks of the first entries is the denial of the walk over the whole array |
| `ToStringWalk.FirstDeniedObject` | src/Extension/SandboxExtension.php:101-103 | when the walk is denied, the violation is the policy's answer for the earliest denied object `objs[k]` in walk order; every earlier object was allowed and no later one was asked |
| `ToStringWalk.AllowedIffEachAllowed` | src/Extension/SandboxExtension.php:101-103 | the `__toString` checks of a list of objects pass iff the policy allows `__toString` on each object of the list |
| `ToStringWalk.CandidatesFollowIterationOrder` | src/Extension/SandboxExtension.php:115-150 | the walk checks a subsequence of `StringableLeaves(v)`: only objects with `__toString` that occur in `v`, in depth-first iteration order |
| `ToStringWalk.SkippedEntryHidesNothing` | src/Extension/SandboxExtension.php:115-145 | in a reference-consistent array, an entry the walk skips holds no object with `__toString` that was not already checked, except objects that cast to false |
| `ToStringWalk.CandidatesChecksAllBut` | src/Extension/SandboxExtension.php:113-151 | in a reference-consistent value, the walk leaves out of `StringableLeaves(v)` only objects it already checked and objects that cast to false, order kept |
| `ToStringWalk.CandidatesCoverStringable` | src/Extension/SandboxExtension.php:94-151 | in a reference-consistent value, every object with `__toString` that does not cast to false is checked |
| `ToStringWalk.WalkDecidesAsCompleteWalk` | src/Extension/SandboxExtension.php:94-151 | in a reference-consistent value with no object that casts to false, the walk ends as checking every object of `StringableLeaves(v)` one by one would: Ok, or the same violation |
| `ToStringWalk.FalsyObjectInArrayIsSkipped` | src/Extension/SandboxExtension.php:101-118 | an object with `__toString` that casts to false is checked when it is the value itself, and skipped as a falsy entry when it sits in an array |
| `ToStringWalk.ScanStackIsRecordedRefs` | src/Extension/SandboxExtension.php:142-148 | after `n` entries of an array, the recorded ids are exactly the reference ids of the non-falsy nested-array entries among them; the record starts empty for each array |
| `ToStringWalk.RepeatedReferenceIsSkipped` | src/Extension/SandboxExtension.php:142-146 | within one array, a nested array reached through a reference already recorded earlier in that array adds no check |
| `ToStringWalk.ReferenceRecordIsPerArray` | src/Extension/SandboxExtension.php:142-150 | the record is local to one array: an array held through reference 7 in an outer array and again, through the same reference, one level down has its object checked twice |

## Left out

- `getTokenParsers`, `getNodeVisitors`, `getName` and the `class_alias` line are not modelled. They only register the sandbox's token parser and node visitor with the template compiler, which is not part of this model.
- The branch for PHP older than 7.4 is not modelled. This is the `static $cookie` marker written into a copy of the array. Only the reference-id branch is modelled.
- Concrete security policies and exception classes are not modelled. A policy is any three total functions, and a violation is a value naming what was denied. A policy is assumed to have no side effects and cannot change the extension while a check runs.
- Cyclic arrays are not modelled; values are finite trees. The code records reference ids in a set that is local to each array's frame and is never passed into the recursive call. So on an array that holds a reference to itself, the code keeps descending and does not terminate. A design in which one visited set is shared by the whole walk would be cycle-safe and would walk each array held through a reference once. The code does not do that, and the model follows the code: `ReferenceRecordIsPerArray` shows the same reference being walked twice.
- PHP values are cut down to null, booleans, integers, strings, objects and arrays. Floats, resources and closures are left out. They are never objects with `__toString`, so they never cause a policy call. Their falsiness (`0.0` is falsy) only decides whether the walk skips them.
- Objects are reduced to an id, a flag for `method_exists($obj, '__toString')` and a flag for `!$obj`. Reflection itself is not modelled.
- `sandboxedGlobally` holds whatever the constructor was given, and `isSandboxedGlobally` returns it as given. The model uses a `bool`. Before the first toggle, `sandboxed` is `null` in PHP; the model uses `false`, which behaves the same in `||`.
- The tags, filters and functions passed to `checkSecurity` are lists of names, and they are passed to the policy unchanged.
- Concurrency is not modelled.
