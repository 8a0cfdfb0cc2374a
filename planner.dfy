/**
 * What the planners make of the language model's reply. The reply arrives
 * already parsed (or as the error the call or `json.loads` raised).
 * commons/engine/engine.py and commons/engine/engine_k15.py return
 * `plan_data["plan"]` whatever it holds; commons/ch9/engine.py accepts only
 * an object whose `"plan"` is a non-empty list.
 */
module Planner {
  import opened Wrappers
  import opened Json

  /** `plan_data["plan"]`, unchecked. */
  function ExtractPlan(reply: Result<Value>): (r: Result<Value>)
    ensures r.Ok? <==> reply.Ok? && reply.value.Obj? && HasKey(reply.value.fields, "plan")
    ensures r.Ok? ==> Lookup(reply.value.fields, "plan") == Some(r.value)
    ensures reply.Err? ==> r == reply
  {
    match reply
    case Err(e) => Err(e)
    case Ok(data) => Index(data, "plan")
  }

  const ShapeError: string := "The extracted JSON does not conform to the expected {{'plan': [...]}} structure."
  const EmptyPlanError: string := "The generated plan is empty."

  /** The checks of commons/ch9/engine.py on the parsed reply. */
  function ValidatePlan(reply: Result<Value>): (r: Result<seq<Value>>)
    ensures r.Ok? <==> reply.Ok? && reply.value.Obj? && HasKey(reply.value.fields, "plan")
                       && Get(reply.value.fields, "plan").Arr? && Get(reply.value.fields, "plan").items != []
    ensures r.Ok? ==> Get(reply.value.fields, "plan") == Arr(r.value) && r.value != []
    ensures reply.Ok? && r.Err? ==> r.error == ShapeError || r.error == EmptyPlanError
  {
    match reply
    case Err(e) => Err(e)
    case Ok(data) =>
      if data.Obj? && HasKey(data.fields, "plan") && Get(data.fields, "plan").Arr? then
        var plan := Get(data.fields, "plan").items;
        if plan == [] then Err(EmptyPlanError) else Ok(plan)
      else Err(ShapeError)
  }

  /** Whatever the strict planner accepts, the unchecked one returns too, as the same list. */
  lemma ValidatedPlanExtracted(reply: Result<Value>)
    requires ValidatePlan(reply).Ok?
    ensures ExtractPlan(reply) == Ok(Arr(ValidatePlan(reply).value))
  {
  }
}
