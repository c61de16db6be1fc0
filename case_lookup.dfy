/** `cases.find(c => c.id === caseId)`: the first case with a given case number. */
module CaseLookup {
  import opened Types

  function FindCase(cases: seq<Case>, caseId: string): (r: Option<Case>)
    ensures r.None? <==> forall i :: 0 <= i < |cases| ==> cases[i].id != caseId
    ensures r.Some? ==> r.value in cases && r.value.id == caseId
    ensures r.Some? ==> exists i :: 0 <= i < |cases| && cases[i] == r.value && FirstWithId(cases, caseId, i)
  {
    if cases == [] then None
    else if cases[0].id == caseId then
      assert FirstWithId(cases, caseId, 0);
      Some(cases[0])
    else
      var r := FindCase(cases[1..], caseId);
      if r.Some? then
        var i :| 0 <= i < |cases| - 1 && cases[1..][i] == r.value && FirstWithId(cases[1..], caseId, i);
        assert FirstWithId(cases, caseId, i + 1);
        r
      else r
  }

  /** Index `i` holds the earliest case numbered `caseId`. */
  predicate FirstWithId(cases: seq<Case>, caseId: string, i: int) {
    0 <= i < |cases| && cases[i].id == caseId && forall j :: 0 <= j < i ==> cases[j].id != caseId
  }

  /** `relatedCase?.patientName || ''`: the linked patient's name, empty for a dangling case number. */
  function PatientNameOf(cases: seq<Case>, caseId: string): string {
    match FindCase(cases, caseId)
    case Some(c) => c.patientName
    case None => ""
  }
}
