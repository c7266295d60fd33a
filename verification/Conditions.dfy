/** internal/controller/conditions.go: a status's condition list, replaced by type or appended. */
module Conditions {
  import opened Wrappers

  datatype ConditionType = Ready | CredentialsValid | PolicyAllowed | Accepted | Applied | AppReady

  datatype Reason = IsReady | Unavailable | Missing | Invalid | WasApplied | Unsupported | Denied

  datatype Condition = Condition(ctype: ConditionType, status: bool, reason: Reason)

  // The first condition of this type, or the end of the list
  function Find(conditions: seq<Condition>, ctype: ConditionType): (i: nat)
    ensures i <= |conditions| && (i < |conditions| ==> conditions[i].ctype == ctype)
    ensures forall j :: 0 <= j < i ==> conditions[j].ctype != ctype
  {
    if conditions == [] || conditions[0].ctype == ctype then 0 else 1 + Find(conditions[1..], ctype)
  }

  // meta.SetStatusCondition
  function SetCondition(conditions: seq<Condition>, ctype: ConditionType, status: bool,
                        reason: Reason): seq<Condition> {
    var i := Find(conditions, ctype);
    var condition := Condition(ctype, status, reason);
    if i == |conditions| then conditions + [condition] else conditions[i := condition]
  }

  // The first condition of this type
  function Entry(conditions: seq<Condition>, ctype: ConditionType): Option<Condition> {
    var i := Find(conditions, ctype);
    if i == |conditions| then None else Some(conditions[i])
  }

  function Status(conditions: seq<Condition>, ctype: ConditionType): Option<bool> {
    var entry := Entry(conditions, ctype);
    if entry.Some? then Some(entry.value.status) else None
  }

  function ReasonForBool(ok: bool): Reason {
    if ok then IsReady else Unavailable
  }

  ghost predicate OnePerType(conditions: seq<Condition>) {
    forall i, j :: 0 <= i < j < |conditions| ==> conditions[i].ctype != conditions[j].ctype
  }

  // Setting a condition is seen by its own type only, and the list never comes to hold a type twice.
  lemma SetConditionReads(conditions: seq<Condition>, ctype: ConditionType, status: bool, reason: Reason,
                          t: ConditionType)
    ensures Entry(SetCondition(conditions, ctype, status, reason), t) ==
            if t == ctype then Some(Condition(ctype, status, reason)) else Entry(conditions, t)
    ensures OnePerType(conditions) ==> OnePerType(SetCondition(conditions, ctype, status, reason))
  {
    var after := SetCondition(conditions, ctype, status, reason);
    var i := Find(conditions, t);
    FindIs(after, t, if t != ctype && i == |conditions| then |after| else i);
  }

  function Types(conditions: seq<Condition>): seq<ConditionType> {
    seq(|conditions|, i requires 0 <= i < |conditions| => conditions[i].ctype)
  }

  // A condition keeps its place in the list, and a new one goes to the end.
  lemma SetConditionKeepsPlaces(conditions: seq<Condition>, ctype: ConditionType, status: bool, reason: Reason)
    ensures var before := Types(conditions);
      Types(SetCondition(conditions, ctype, status, reason)) == if ctype in before then before else before + [ctype]
  {
    var i, before := Find(conditions, ctype), Types(conditions);
    assert i < |conditions| ==> before[i] == ctype;
    assert forall j :: 0 <= j < |conditions| ==> before[j] == conditions[j].ctype;
  }

  lemma FindIs(conditions: seq<Condition>, t: ConditionType, i: nat)
    requires i <= |conditions| && (i < |conditions| ==> conditions[i].ctype == t)
    requires forall j :: 0 <= j < i ==> conditions[j].ctype != t
    ensures Find(conditions, t) == i
  {
  }
}
