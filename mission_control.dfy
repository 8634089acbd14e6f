/**
 * The active-missions panel of one vehicle: the list of active missions, the
 * mission whose debrief is open, completing a mission, the elapsed-time
 * label and the colour of the estimated profit.
 *
 * The store write is not modelled; its outcome is an input. The clock is a
 * parameter `now`, in milliseconds since the epoch, like `Date.getTime()`.
 */
module MissionControl {
  import opened Optional
  import opened JsValues
  import MissionDebrief

  datatype Mission = Mission(
    id: string,
    destination: string,
    offerAmount: real,
    estimatedMiles: real,
    estimatedProfit: real,
    createdAt: int)

  datatype MissionStatus = Active | Completed

  /** The row update sent to the store for `.eq('id', missionId)`. */
  datatype CompletionUpdate = CompletionUpdate(
    missionId: string,
    status: MissionStatus,
    actualMiles: JsNumber,
    completedAt: int,
    updatedAt: int)

  // ---------------------------------------------------------------------
  // Completion

  /** The update `handleCompleteMission` writes for a mission, stamped with `now`. */
  function CompletionRecord(missionId: string, actualMiles: JsNumber, now: int): (u: CompletionUpdate)
    ensures u.missionId == missionId && u.status == Completed
    ensures u.actualMiles == actualMiles
    ensures u.completedAt == now && u.updatedAt == now
  {
    CompletionUpdate(missionId, Completed, actualMiles, now, now)
  }

  /** `missions.filter(m => m.id !== id)` */
  function Without(missions: seq<Mission>, id: string): (r: seq<Mission>)
    ensures |r| <= |missions|
    ensures forall m :: m in r <==> m in missions && m.id != id
  {
    if missions == [] then []
    else
      var rest := Without(missions[..|missions| - 1], id);
      var last := missions[|missions| - 1];
      assert forall m :: m in missions <==> m in missions[..|missions| - 1] || m == last;
      if last.id != id then rest + [last] else rest
  }

  /** Filtering distributes over concatenation, so the kept missions keep their order. */
  lemma {:induction false} WithoutAppend(a: seq<Mission>, b: seq<Mission>, id: string)
    ensures Without(a + b, id) == Without(a, id) + Without(b, id)
    decreases |b|
  {
    if b == [] {
      assert a + b == a;
    } else {
      var init, last := b[..|b| - 1], b[|b| - 1];
      assert (a + b)[..|a + b| - 1] == a + init;
      WithoutAppend(a, init, id);
    }
  }

  /** A one-mission list keeps its mission exactly when the ids differ. */
  lemma WithoutSingle(m: Mission, id: string)
    ensures Without([m], id) == if m.id != id then [m] else []
  {
    assert [m][..0] == [];
  }

  /** Removing an id that no mission has changes nothing. */
  lemma {:induction false} WithoutAbsent(missions: seq<Mission>, id: string)
    requires forall i :: 0 <= i < |missions| ==> missions[i].id != id
    ensures Without(missions, id) == missions
  {
    if missions != [] {
      WithoutAbsent(missions[..|missions| - 1], id);
      assert missions[..|missions| - 1] + [missions[|missions| - 1]] == missions;
    }
  }

  /** Completing the same id twice is the same as completing it once. */
  lemma WithoutIdempotent(missions: seq<Mission>, id: string)
    ensures Without(Without(missions, id), id) == Without(missions, id)
  {
    var once := Without(missions, id);
    forall i | 0 <= i < |once| ensures once[i].id != id {
      assert once[i] in once;
    }
    WithoutAbsent(once, id);
  }

  // ---------------------------------------------------------------------
  // Elapsed time

  const MsPerHour: int := 1000 * 60 * 60
  const MsPerMinute: int := 1000 * 60

  /** `Math.floor(diffMs / 3600000)`: floor division, also for a negative difference. */
  function ElapsedHours(createdAt: int, now: int): (h: int)
    ensures h * MsPerHour <= now - createdAt < (h + 1) * MsPerHour
  {
    (now - createdAt) / MsPerHour
  }

  /** `Math.floor((diffMs % 3600000) / 60000)`, with JS's sign-of-dividend `%`. */
  function ElapsedMinutes(createdAt: int, now: int): (m: int)
    ensures -60 <= m < 60
    ensures now >= createdAt ==> m >= 0
  {
    TruncRem(now - createdAt, MsPerHour) / MsPerMinute
  }

  /** `getTimeElapsed`: "{h}h {m}m" once a whole hour has passed, "{m}m" before. */
  function ElapsedText(createdAt: int, now: int): (t: string)
    ensures |t| >= 2 && t[|t| - 1] == 'm'
    ensures 'h' in t <==> ElapsedHours(createdAt, now) > 0
  {
    var hours, minutes := ElapsedHours(createdAt, now), ElapsedMinutes(createdAt, now);
    if hours > 0 then IntToString(hours) + "h " + IntToString(minutes) + "m"
    else IntToString(minutes) + "m"
  }

  lemma DivideExactly(a: int, b: int, q: int, r: int)
    requires b > 0 && 0 <= r < b && a == q * b + r
    ensures a / b == q && a % b == r
  {
    var q', r' := a / b, a % b;
    assert (q - q') * b == r' - r;
    if q != q' {
      MulMagnitude(q - q', b);
    }
  }

  /**
   * For a non-negative gap: minutes lie in 0..59, and hours and minutes
   * together are the whole minutes elapsed.
   */
  lemma ElapsedSplit(createdAt: int, now: int)
    requires now >= createdAt
    ensures 0 <= ElapsedHours(createdAt, now)
    ensures 0 <= ElapsedMinutes(createdAt, now) < 60
    ensures ElapsedHours(createdAt, now) * 60 + ElapsedMinutes(createdAt, now)
              == (now - createdAt) / MsPerMinute
  {
    var diff := now - createdAt;
    var h, rem := diff / MsPerHour, diff % MsPerHour;
    var m, sec := rem / MsPerMinute, rem % MsPerMinute;
    assert rem == m * MsPerMinute + sec;
    DivideExactly(rem, MsPerMinute, m, sec);
    assert m < 60;
    assert diff == (h * 60 + m) * MsPerMinute + sec;
    DivideExactly(diff, MsPerMinute, h * 60 + m, sec);
  }

  /**
   * The label in terms of the whole minutes elapsed: for a non-negative gap
   * of T whole minutes it is "{T/60}h {T%60}m" from one hour on and "{T}m"
   * before.
   */
  lemma ElapsedTextByMinutes(createdAt: int, now: int)
    requires now >= createdAt
    ensures var total := (now - createdAt) / MsPerMinute;
              ElapsedText(createdAt, now) ==
                if total >= 60 then NatToString(total / 60) + "h " + NatToString(total % 60) + "m"
                else NatToString(total) + "m"
  {
    ElapsedSplit(createdAt, now);
    var h, m := ElapsedHours(createdAt, now), ElapsedMinutes(createdAt, now);
    var total := (now - createdAt) / MsPerMinute;
    DivideExactly(total, 60, h, m);
  }

  /** A 90-minute gap reads "1h 30m" and a 45-minute gap reads "45m". */
  lemma ElapsedTextExamples(createdAt: int)
    ensures ElapsedText(createdAt, createdAt + 90 * MsPerMinute) == "1h 30m"
    ensures ElapsedText(createdAt, createdAt + 45 * MsPerMinute) == "45m"
  {
    ElapsedTextByMinutes(createdAt, createdAt + 90 * MsPerMinute);
    ElapsedTextByMinutes(createdAt, createdAt + 45 * MsPerMinute);
    DivideExactly(90 * MsPerMinute, MsPerMinute, 90, 0);
    DivideExactly(45 * MsPerMinute, MsPerMinute, 45, 0);
    assert NatToString(1) == "1";
    assert NatToString(3) == "3";
    assert NatToString(30) == "30";
    assert NatToString(4) == "4";
    assert NatToString(45) == "45";
  }

  /**
   * A creation time half an hour in the future (clock skew) reads "-30m":
   * the floor makes the hours negative and the truncating remainder keeps
   * the minus sign on the minutes.
   */
  lemma ElapsedTextNegativeGap(createdAt: int)
    ensures ElapsedHours(createdAt, createdAt - 30 * MsPerMinute) == -1
    ensures ElapsedText(createdAt, createdAt - 30 * MsPerMinute) == "-30m"
  {
    DivideExactly(-30 * MsPerMinute, MsPerHour, -1, 30 * MsPerMinute);
    assert TruncRem(-30 * MsPerMinute, MsPerHour) == -30 * MsPerMinute;
    DivideExactly(-30 * MsPerMinute, MsPerMinute, -30, 0);
    assert ElapsedMinutes(createdAt, createdAt - 30 * MsPerMinute) == -30;
    assert NatToString(3) == "3";
    assert NatToString(30) == "30";
  }

  // ---------------------------------------------------------------------
  // Estimated profit

  datatype ProfitTone = Gain | Loss

  /** The colour of the EST. PROFIT figure: positive is a gain, zero or less a loss. */
  function ProfitToneOf(m: Mission): (t: ProfitTone)
    ensures t == Gain <==> m.estimatedProfit > 0.0
    ensures t == Loss <==> m.estimatedProfit <= 0.0
  {
    if m.estimatedProfit > 0.0 then Gain else Loss
  }

  // ---------------------------------------------------------------------
  // The panel's state

  class MissionPanel {
    var activeMissions: seq<Mission>
    var selectedMission: Option<Mission>
    var loading: bool
    /** Whether the parent passed an `onMissionUpdate` callback. */
    const hasUpdateCallback: bool

    constructor (hasUpdateCallback: bool)
      ensures activeMissions == [] && selectedMission == None && loading
      ensures this.hasUpdateCallback == hasUpdateCallback
    {
      activeMissions := [];
      selectedMission := None;
      loading := true;
      this.hasUpdateCallback := hasUpdateCallback;
    }

    /**
     * `loadActiveMissions` once the query has answered: None when it
     * reported an error, else the vehicle's active missions as returned.
     */
    method LoadActiveMissions(fetched: Option<seq<Mission>>)
      modifies this
      ensures !loading && selectedMission == old(selectedMission)
      ensures activeMissions == if fetched.Some? then fetched.value else old(activeMissions)
    {
      if fetched.Some? {
        activeMissions := fetched.value;
      }
      loading := false;
    }

    /** The COMPLETE button of a mission card opens its debrief. */
    method SelectMission(m: Mission)
      modifies this
      ensures selectedMission == Some(m)
      ensures activeMissions == old(activeMissions) && loading == old(loading)
    {
      selectedMission := Some(m);
    }

    /** The debrief's `onClose`. */
    method CloseDebrief()
      modifies this
      ensures selectedMission == None
      ensures activeMissions == old(activeMissions) && loading == old(loading)
    {
      selectedMission := None;
    }

    /**
     * `handleCompleteMission`: the update it writes, and whether it called
     * `onMissionUpdate`. Only when the write succeeded (`stored`) does it
     * drop the mission from the list and clear the selection.
     */
    method HandleCompleteMission(missionId: string, actualMiles: JsNumber, now: int, stored: bool)
      returns (update: CompletionUpdate, notified: bool)
      modifies this
      ensures update == CompletionRecord(missionId, actualMiles, now)
      ensures notified <==> stored && hasUpdateCallback
      ensures stored ==> activeMissions == Without(old(activeMissions), missionId)
      ensures stored ==> selectedMission == None
      ensures !stored ==> activeMissions == old(activeMissions)
      ensures !stored ==> selectedMission == old(selectedMission)
      ensures loading == old(loading)
    {
      update := CompletionRecord(missionId, actualMiles, now);
      notified := false;
      if stored {
        activeMissions := Without(activeMissions, missionId);
        selectedMission := None;
        if hasUpdateCallback {
          notified := true;
        }
      }
    }

    /**
     * COMPLETE MISSION in the open debrief, whose `onComplete` is
     * `handleCompleteMission`: a rejected mileage writes nothing and changes
     * nothing; an accepted one goes on to the completion above.
     */
    method SubmitDebrief(dialog: MissionDebrief.DebriefDialog, now: int, stored: bool)
      returns (update: Option<CompletionUpdate>)
      requires selectedMission.Some? && dialog.mission.id == selectedMission.value.id
      modifies this
      ensures update.Some? <==> MissionDebrief.AcceptsMiles(dialog.actualMiles)
      ensures update.Some? ==>
                update.value == CompletionRecord(dialog.mission.id, dialog.actualMiles, now)
      ensures update.None? || !stored ==>
                activeMissions == old(activeMissions) && selectedMission == old(selectedMission)
      ensures update.Some? && stored ==>
                activeMissions == Without(old(activeMissions), dialog.mission.id) && selectedMission == None
      ensures loading == old(loading)
    {
      var request := dialog.HandleSubmit();
      update := None;
      if request.Some? {
        var written, _ := HandleCompleteMission(request.value.missionId, request.value.actualMiles, now, stored);
        update := Some(written);
      }
    }
  }

}
