/** Ordered rule tables, as the client forms and the server validators use them: each rule pairs a
    failure condition with the message reported for it. The forms report only the first failing
    rule; the server validators collect every failing rule's message. */
module FormRules {
  import opened Wrappers

  datatype Rule = Rule(fails: bool, message: string)

  /** The index of the first failing rule, if any. */
  function FirstFailingIndex(rules: seq<Rule>): (r: Option<nat>)
    ensures r.None? <==> forall i | 0 <= i < |rules| :: !rules[i].fails
    ensures r.Some? ==> r.value < |rules| && rules[r.value].fails
    ensures r.Some? ==> forall j | 0 <= j < r.value :: !rules[j].fails
  {
    if rules == [] then None
    else if rules[0].fails then Some(0)
    else
      var rest := FirstFailingIndex(rules[1..]);
      if rest.None? then None else Some(rest.value + 1)
  }

  /** The `for (const [condition, message] of rules)` loop that stops at the first failing rule. */
  method ScanRules(rules: seq<Rule>) returns (failed: Option<nat>)
    ensures failed == FirstFailingIndex(rules)
  {
    var i := 0;
    while i < |rules|
      invariant 0 <= i <= |rules|
      invariant forall j | 0 <= j < i :: !rules[j].fails
    {
      if rules[i].fails {
        FirstFailingIndexIs(rules, i);
        return Some(i);
      }
      i := i + 1;
    }
    failed := None;
  }

  /** The first failing rule is determined by the failure flags alone. */
  lemma FirstFailingIndexIs(rules: seq<Rule>, i: nat)
    requires i < |rules| && rules[i].fails
    requires forall j | 0 <= j < i :: !rules[j].fails
    ensures FirstFailingIndex(rules) == Some(i)
  {
  }

  /** The message of the first failing rule, if any: what the loop reports. */
  function FirstFailureMessage(rules: seq<Rule>): (m: Option<string>)
    ensures m.None? <==> forall i | 0 <= i < |rules| :: !rules[i].fails
    ensures m.Some? ==> exists i | 0 <= i < |rules| ::
                          && rules[i].fails && rules[i].message == m.value
                          && forall j | 0 <= j < i :: !rules[j].fails
  {
    var k := FirstFailingIndex(rules);
    if k.None? then None else Some(rules[k.value].message)
  }

  /** The messages of all failing rules, in table order. */
  function FailureMessages(rules: seq<Rule>): (ms: seq<string>)
    ensures ms == [] <==> forall i | 0 <= i < |rules| :: !rules[i].fails
    ensures |ms| <= |rules|
    ensures forall i | 0 <= i < |rules| && rules[i].fails :: rules[i].message in ms
    ensures forall m | m in ms :: exists i | 0 <= i < |rules| :: rules[i].fails && rules[i].message == m
  {
    if rules == [] then []
    else (if rules[0].fails then [rules[0].message] else []) + FailureMessages(rules[1..])
  }

  /** A JavaScript value as `validateForm` returns it: a boolean, or the id string `toast.error`
      returns. */
  datatype JsValue = JsBool(b: bool) | JsString(s: string)

  /** JavaScript truthiness: `if (!ok) return;` stops exactly on a falsy value. */
  predicate Truthy(v: JsValue) {
    match v
    case JsBool(b) => b
    case JsString(s) => s != ""
  }
}
