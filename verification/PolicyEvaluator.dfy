/** The mapping from a policy engine result to the decision the proxy branches on. */
module PolicyEvaluator {
  import opened Wrappers

  /** A deny_reasons element: a string, or a value of some other type. */
  datatype Reason = Text(text: string) | Other

  /** A Rego set arrives as a list, a Rego object as a map, whose values come in some order. */
  datatype DenyReasons = Absent | List(items: seq<Reason>) | Object(values: seq<Reason>)

  datatype OpaResult =
    | EvalError(message: string)
    | NoResult
    | NotAnObject
    | Result(allow: Option<bool>, requiresApproval: Option<bool>, denyReasons: DenyReasons)

  datatype Action = Allow | Block | RequireApproval

  datatype Decision = Decision(allow: bool, action: Action, reasons: seq<string>)

  function Texts(items: seq<Reason>, keep: string -> bool): seq<string> {
    if items == [] then []
    else
      var rest, last := Texts(items[..|items| - 1], keep), items[|items| - 1];
      if last.Text? && keep(last.text) then rest + [last.text] else rest
  }

  /** blank tells whether strings.TrimSpace leaves nothing; only the object form drops blank reasons. */
  function Reasons(deny: DenyReasons, blank: string -> bool): seq<string> {
    match deny
    case Absent => []
    case List(items) => Texts(items, _ => true)
    case Object(values) => Texts(values, s => !blank(s))
  }

  /** Exactly the strings are kept; blank ones too, unless the reasons came as an object. */
  lemma {:induction false} InTexts(items: seq<Reason>, keep: string -> bool, s: string)
    ensures s in Texts(items, keep) <==> Text(s) in items && keep(s)
  {
    if items != [] {
      InTexts(items[..|items| - 1], keep, s);
      assert items == items[..|items| - 1] + [items[|items| - 1]];
    }
  }

  method ExtractReasons(deny: DenyReasons, blank: string -> bool) returns (reasons: seq<string>)
    ensures reasons == Reasons(deny, blank)
  {
    reasons := [];
    if deny.Absent? {
      return;
    }
    var items := if deny.List? then deny.items else deny.values;
    var keep: string -> bool := if deny.List? then _ => true else s => !blank(s);
    var i := 0;
    while i < |items|
      invariant 0 <= i <= |items|
      invariant reasons == Texts(items[..i], keep)
    {
      assert items[..i + 1][..i] == items[..i];
      if items[i].Text? && keep(items[i].text) {
        reasons := reasons + [items[i].text];
      }
      i := i + 1;
    }
    assert items[..i] == items;
    if deny.Object? {
      TextsSame(items, keep, s => !blank(s));
    } else {
      TextsSame(items, keep, _ => true);
    }
  }

  lemma TextsSame(items: seq<Reason>, f: string -> bool, g: string -> bool)
    requires forall s :: f(s) == g(s)
    ensures Texts(items, f) == Texts(items, g)
  {
  }

  /** A text among the deny reasons, and not a blank one of an object. */
  predicate IsReason(deny: DenyReasons, blank: string -> bool, s: string) {
    match deny
    case Absent => false
    case List(items) => Text(s) in items
    case Object(values) => Text(s) in values && !blank(s)
  }

  lemma ReasonsAre(deny: DenyReasons, blank: string -> bool)
    ensures forall s :: s in Reasons(deny, blank) <==> IsReason(deny, blank, s)
  {
    forall s ensures s in Reasons(deny, blank) <==> IsReason(deny, blank, s) {
      match deny {
        case Absent =>
        case List(items) => InTexts(items, _ => true, s);
        case Object(values) => InTexts(values, s => !blank(s), s);
      }
    }
  }

  function Evaluate(opa: OpaResult, blank: string -> bool): (d: Decision)
    ensures d.allow <==> d.action.Allow?
    ensures d.allow <==> opa.EvalError? || (opa.Result? && opa.allow == Some(true))
    ensures d.action.RequireApproval? <==>
              opa.Result? && opa.allow != Some(true) && opa.requiresApproval == Some(true)
    ensures opa.Result? ==> forall s :: s in d.reasons <==> IsReason(opa.denyReasons, blank, s)
    ensures opa.EvalError? ==> d.reasons == ["policy-evaluation-error: " + opa.message]
    ensures opa.NoResult? ==> d.reasons == ["no-policy-result"]
    ensures opa.NotAnObject? ==> d.reasons == ["invalid-policy-result"]
  {
    match opa
    case EvalError(message) => Decision(true, Allow, ["policy-evaluation-error: " + message])
    case NoResult => Decision(false, Block, ["no-policy-result"])
    case NotAnObject => Decision(false, Block, ["invalid-policy-result"])
    case Result(a, r, deny) =>
      var allow := a == Some(true);
      ReasonsAre(deny, blank);
      var action := if r == Some(true) && !allow then RequireApproval else if !allow then Block else Allow;
      Decision(allow, action, Reasons(deny, blank))
  }
}
