/**
 * The mission debrief dialog: the actual-mileage field, and the two buttons
 * that either ask the parent to complete the mission or close the dialog.
 *
 * The field's text and `parseFloat` are not modelled: the field is held as
 * the number `parseFloat` reads from it.
 */
module MissionDebrief {
  import opened Optional
  import opened JsValues

  /** The part of a mission the dialog is given. */
  datatype DebriefMission = DebriefMission(id: string, destination: string, estimatedMiles: real)

  /** The arguments of one `onComplete(missionId, actualMiles)` call. */
  datatype CompletionRequest = CompletionRequest(missionId: string, actualMiles: JsNumber)

  datatype Button = CompleteButton | CancelButton

  /** What a click asks of the parent: complete the mission, close the dialog, or nothing. */
  datatype DebriefOutcome = Complete(request: CompletionRequest) | Close | NoAction

  /** The guard of `handleSubmit`: `!miles || miles <= 0` rejects. */
  predicate AcceptsMiles(miles: JsNumber)
  {
    Truthy(miles) && !AtMost(miles, 0.0)
  }

  /**
   * Exactly the strictly positive numbers pass: NaN, zero, negatives and
   * minus infinity are rejected; plus infinity is not.
   */
  lemma AcceptsMilesIffPositive(miles: JsNumber)
    ensures AcceptsMiles(miles) <==> miles == Infinity || (miles.Finite? && miles.value > 0.0)
    ensures miles == NaN || miles == Finite(0.0) || miles == NegInfinity ==> !AcceptsMiles(miles)
  {
  }

  /** `handleSubmit` as a value: the one completion request it issues, if any. */
  function SubmitRequest(mission: DebriefMission, miles: JsNumber): (r: Option<CompletionRequest>)
    ensures r.Some? <==> miles == Infinity || (miles.Finite? && miles.value > 0.0)
    ensures r.Some? ==> r.value.missionId == mission.id && r.value.actualMiles == miles
  {
    if !Truthy(miles) || AtMost(miles, 0.0) then None
    else Some(CompletionRequest(mission.id, miles))
  }

  class DebriefDialog {
    const mission: DebriefMission
    /** What `parseFloat` reads from the ACTUAL MILEAGE field. */
    var actualMiles: JsNumber

    /** The field starts out holding the mission's estimated miles. */
    constructor (mission: DebriefMission)
      ensures this.mission == mission
      ensures actualMiles == Finite(mission.estimatedMiles)
    {
      this.mission := mission;
      actualMiles := Finite(mission.estimatedMiles);
    }

    /** The field's `onChange`, with the new text already read as a number. */
    method EditMiles(parsed: JsNumber)
      modifies this
      ensures actualMiles == parsed
    {
      actualMiles := parsed;
    }

    /** `handleSubmit`: at most one completion request, carrying this mission's id. */
    method HandleSubmit() returns (request: Option<CompletionRequest>)
      ensures request == SubmitRequest(mission, actualMiles)
      ensures request.Some? <==> AcceptsMiles(actualMiles)
      ensures request.Some? ==> request.value == CompletionRequest(mission.id, actualMiles)
      ensures request.Some? ==>
                request.value.actualMiles == Infinity || request.value.actualMiles.value > 0.0
    {
      var miles := actualMiles;
      if !Truthy(miles) || AtMost(miles, 0.0) {
        return None;
      }
      request := Some(CompletionRequest(mission.id, miles));
    }

    /** A button click: only COMPLETE MISSION can ask for a completion; CANCEL always closes. */
    method Click(button: Button) returns (outcome: DebriefOutcome)
      ensures outcome.Complete? ==> button == CompleteButton && AcceptsMiles(actualMiles)
      ensures outcome.Complete? ==> outcome.request == CompletionRequest(mission.id, actualMiles)
      ensures button == CancelButton ==> outcome == Close
      ensures button == CompleteButton ==> (outcome.Complete? <==> AcceptsMiles(actualMiles))
      ensures button == CompleteButton ==> outcome != Close
    {
      match button
      case CancelButton =>
        outcome := Close;
      case CompleteButton =>
        var request := HandleSubmit();
        outcome := if request.Some? then Complete(request.value) else NoAction;
    }
  }

}
