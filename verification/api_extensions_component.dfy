/** `ApiExtensionsComponent`: the selection flags and the confirm-then-filter
    flows that turn a selection of API extension services into batches of
    requests. The answers given to the modal dialogs are inputs; the
    requests built, batch by batch, are the output. Loading flags,
    subscriptions and the list refresh after a batch are not modelled. */
module ApiExtensionsComponent {
  import opened Wrappers
  import opened ApiExtensionService

  // ---------------------------------------------------------------------
  // The `selected` setter
  // ---------------------------------------------------------------------

  /** Which of the enable and disable buttons are shown. */
  datatype Flags = Flags(canEnable: bool, canDisable: bool)

  /** `selected.find((as) => as.enabled === state)`: the first record in
      that state, if any. */
  function Find(sel: seq<AdminServiceRecord>, state: bool): (r: Option<AdminServiceRecord>)
    ensures r.Some? <==> exists i :: 0 <= i < |sel| && sel[i].enabled == state
    ensures r.Some? ==> r.value.enabled == state && r.value in sel
    ensures r.Some? ==> exists i :: 0 <= i < |sel| && sel[i] == r.value
                         && forall j :: 0 <= j < i ==> sel[j].enabled != state
  {
    if |sel| == 0 then None
    else if sel[0].enabled == state then Some(sel[0])
    else
      var r := Find(sel[1..], state);
      assert forall i :: 1 <= i < |sel| ==> sel[i] == sel[1..][i - 1];
      r
  }

  /** The flags the setter computes: disabling is offered when some
      selected record is enabled, enabling when some is disabled. */
  function SelectionFlags(sel: seq<AdminServiceRecord>): (f: Flags)
    ensures f.canDisable <==> exists i :: 0 <= i < |sel| && sel[i].enabled
    ensures f.canEnable <==> exists i :: 0 <= i < |sel| && !sel[i].enabled
    ensures |sel| == 0 ==> !f.canEnable && !f.canDisable
  {
    var enabled := Find(sel, true);
    var disabled := Find(sel, false);
    Flags(canEnable := disabled.Some?, canDisable := enabled.Some?)
  }

  /** A non-empty selection always offers at least one of the two actions,
      and offers both exactly when it mixes enabled and disabled records. */
  lemma NonEmptySelectionOffersAnAction(sel: seq<AdminServiceRecord>)
    requires |sel| > 0
    ensures SelectionFlags(sel).canEnable || SelectionFlags(sel).canDisable
    ensures SelectionFlags(sel).canEnable && SelectionFlags(sel).canDisable <==>
      exists i, j :: 0 <= i < |sel| && 0 <= j < |sel| && sel[i].enabled && !sel[j].enabled
  {
  }

  // ---------------------------------------------------------------------
  // Request batches
  // ---------------------------------------------------------------------

  datatype Action = EnableAction | DisableAction | DeleteAction

  /** The service call `enable`, `disable` or `delete` makes for one record. */
  function RequestFor(action: Action, href: string): ApiRequest {
    match action
    case EnableAction => Enable(href)
    case DisableAction => Disable(href)
    case DeleteAction => Remove(href)
  }

  /** `enable(list)`, `disable(list)` and `delete(list)`: one request per
      record, each aimed at that record's `href`, in list order. */
  function Batch(action: Action, recs: seq<AdminServiceRecord>): (reqs: seq<ApiRequest>)
    ensures |reqs| == |recs|
    ensures forall i :: 0 <= i < |recs| ==> reqs[i] == RequestFor(action, recs[i].href)
  {
    if |recs| == 0 then []
    else [RequestFor(action, recs[0].href)] + Batch(action, recs[1..])
  }

  /** Batches of a concatenation are the concatenated batches: the order
      of the list is the order of the requests. */
  lemma BatchOfConcatenation(action: Action, a: seq<AdminServiceRecord>, b: seq<AdminServiceRecord>)
    ensures Batch(action, a + b) == Batch(action, a) + Batch(action, b)
  {
    var l := Batch(action, a + b);
    var r := Batch(action, a) + Batch(action, b);
    forall i | 0 <= i < |l| ensures l[i] == r[i] {
      if i >= |a| {
        assert (a + b)[i] == b[i - |a|];
      }
    }
  }

  // ---------------------------------------------------------------------
  // onEnable / onDisable
  // ---------------------------------------------------------------------

  /** The records of the selection not already in the `goal` state, in
      selection order: `readyToEnable` for goal true, `readyToDisable` and
      the `enabled` filter of the delete remediation for goal false. */
  function Ready(goal: bool, sel: seq<AdminServiceRecord>): (r: seq<AdminServiceRecord>)
    ensures |r| <= |sel|
  {
    if |sel| == 0 then []
    else if sel[0].enabled == goal then Ready(goal, sel[1..])
    else [sel[0]] + Ready(goal, sel[1..])
  }

  /** The ready records are exactly the selected records not in the goal
      state. */
  lemma {:induction false} ReadyMembers(goal: bool, sel: seq<AdminServiceRecord>)
    ensures forall x :: x in Ready(goal, sel) <==> x in sel && x.enabled != goal
    decreases |sel|
  {
    if |sel| > 0 {
      ReadyMembers(goal, sel[1..]);
      assert sel == [sel[0]] + sel[1..];
    }
  }

  /** Nothing is ready exactly when every selected record is already in the
      goal state; everything is ready exactly when none is. */
  lemma {:induction false} ReadyCounts(goal: bool, sel: seq<AdminServiceRecord>)
    ensures |Ready(goal, sel)| == 0 <==> forall i :: 0 <= i < |sel| ==> sel[i].enabled == goal
    ensures |Ready(goal, sel)| == |sel| <==> forall i :: 0 <= i < |sel| ==> sel[i].enabled != goal
    decreases |sel|
  {
    if |sel| > 0 {
      ReadyCounts(goal, sel[1..]);
      assert forall i :: 1 <= i < |sel| ==> sel[i] == sel[1..][i - 1];
    }
  }

  /** Filtering keeps order: it distributes over concatenation. */
  lemma {:induction false} ReadyKeepsOrder(goal: bool, a: seq<AdminServiceRecord>, b: seq<AdminServiceRecord>)
    ensures Ready(goal, a + b) == Ready(goal, a) + Ready(goal, b)
    decreases |a|
  {
    if |a| > 0 {
      ReadyKeepsOrder(goal, a[1..], b);
      assert (a + b)[1..] == a[1..] + b;
      assert (a + b)[0] == a[0];
    } else {
      assert a + b == b;
    }
  }

  function ActionFor(goal: bool): Action {
    if goal then EnableAction else DisableAction
  }

  /** What the user sees after the first confirmation, and what is sent. */
  datatype ToggleOutcome =
    | Closed                                                  // the dialog just closes
    | AllAlready                                              // "All API Extensions are already ..."
    | Prompted(already: nat, total: nat, sent: seq<ApiRequest>) // "k of n are already ...", then the answer
    | Sent(batch: seq<ApiRequest>)

  /** The requests an outcome sends. */
  function Issued(o: ToggleOutcome): seq<ApiRequest> {
    match o
    case Closed => []
    case AllAlready => []
    case Prompted(_, _, sent) => sent
    case Sent(batch) => batch
  }

  /** `onEnable` (goal true) and `onDisable` (goal false). `accept` is the
      answer to "Are you sure", `proceed` the answer to the partial prompt. */
  function Toggle(goal: bool, sel: seq<AdminServiceRecord>, accept: bool, proceed: bool): (o: ToggleOutcome)
    ensures o.Closed? <==> !accept || |sel| == 0 || (|sel| == 1 && sel[0].enabled == goal)
    ensures o.AllAlready? <==> accept && |sel| >= 2 && forall i :: 0 <= i < |sel| ==> sel[i].enabled == goal
    ensures o.Prompted? <==> accept && (exists i :: 0 <= i < |sel| && sel[i].enabled == goal)
                                    && (exists j :: 0 <= j < |sel| && sel[j].enabled != goal)
    ensures o.Prompted? ==> o.total == |sel| && o.already == |sel| - |Ready(goal, sel)| && 0 < o.already < o.total
    ensures o.Sent? <==> accept && |sel| > 0 && forall i :: 0 <= i < |sel| ==> sel[i].enabled != goal
    ensures Issued(o) == if accept && |Ready(goal, sel)| > 0 && (|Ready(goal, sel)| == |sel| || proceed)
                         then Batch(ActionFor(goal), Ready(goal, sel)) else []
  {
    ReadyCounts(goal, sel);
    if !accept || |sel| == 0 then Closed
    else if |sel| == 1 && sel[0].enabled == goal then Closed
    else
      var ready := Ready(goal, sel);
      if |ready| == 0 then AllAlready
      else if |ready| != |sel| then
        Prompted(|sel| - |ready|, |sel|, if proceed then Batch(ActionFor(goal), ready) else [])
      else Sent(Batch(ActionFor(goal), ready))
  }

  /** A toggle never sends a request for a record already in the goal
      state: every request targets a selected record that needs the
      change. */
  lemma ToggleTargetsOnlyRecordsNeedingChange(goal: bool, sel: seq<AdminServiceRecord>, accept: bool, proceed: bool)
    ensures forall q :: q in Issued(Toggle(goal, sel, accept, proceed)) ==>
      q == RequestFor(ActionFor(goal), q.url) &&
      exists i :: 0 <= i < |sel| && sel[i].href == q.url && sel[i].enabled != goal
  {
    var ready := Ready(goal, sel);
    ReadyMembers(goal, sel);
    forall q | q in Issued(Toggle(goal, sel, accept, proceed))
      ensures q == RequestFor(ActionFor(goal), q.url)
      ensures exists i :: 0 <= i < |sel| && sel[i].href == q.url && sel[i].enabled != goal
    {
      var batch := Batch(ActionFor(goal), ready);
      var k :| 0 <= k < |batch| && batch[k] == q;
      assert ready[k] in ready;
      var i :| 0 <= i < |sel| && sel[i] == ready[k];
    }
  }

  /** `onEnable`: only disabled records are ever enabled. */
  function OnEnable(sel: seq<AdminServiceRecord>, accept: bool, proceed: bool): (o: ToggleOutcome)
    ensures forall q :: q in Issued(o) ==>
      q == Enable(q.url) && exists i :: 0 <= i < |sel| && sel[i].href == q.url && !sel[i].enabled
  {
    ToggleTargetsOnlyRecordsNeedingChange(true, sel, accept, proceed);
    Toggle(true, sel, accept, proceed)
  }

  /** `onDisable`: only enabled records are ever disabled. */
  function OnDisable(sel: seq<AdminServiceRecord>, accept: bool, proceed: bool): (o: ToggleOutcome)
    ensures forall q :: q in Issued(o) ==>
      q == Disable(q.url) && exists i :: 0 <= i < |sel| && sel[i].href == q.url && sel[i].enabled
  {
    ToggleTargetsOnlyRecordsNeedingChange(false, sel, accept, proceed);
    Toggle(false, sel, accept, proceed)
  }

  // ---------------------------------------------------------------------
  // onDelete
  // ---------------------------------------------------------------------

  /** The batches issued, in the order they are subscribed, and whether the
      "You must disable the API Extension(s) before delete" dialog was shown.
      A batch after the first in the remediation is subscribed only if the
      one before it completes without error. */
  datatype DeleteOutcome = DeleteOutcome(batches: seq<seq<ApiRequest>>, remediationOffered: bool)

  /** `onDelete`. `accept` answers "Are you sure", `deleteFailed` is whether
      the first delete batch reported an error, `remediate` answers the
      offer to disable first. The remediation concatenates a disable batch
      for the enabled records with a delete batch for the same records, so
      the delete batch goes out only once every disable has succeeded; a
      failing disable is not modelled, and the outcome lists both. */
  function OnDelete(sel: seq<AdminServiceRecord>, accept: bool, deleteFailed: bool, remediate: bool): (o: DeleteOutcome)
    ensures !accept ==> o.batches == [] && !o.remediationOffered
    ensures accept ==> |o.batches| >= 1 && o.batches[0] == Batch(DeleteAction, sel)
    ensures o.remediationOffered <==> accept && deleteFailed
    ensures |o.batches| == 3 <==> accept && deleteFailed && remediate
    ensures |o.batches| != 3 ==> |o.batches| <= 1
    ensures |o.batches| == 3 ==>
      o.batches[1] == Batch(DisableAction, Ready(false, sel)) &&
      o.batches[2] == Batch(DeleteAction, Ready(false, sel))
  {
    if !accept then DeleteOutcome([], false)
    else
      var first := Batch(DeleteAction, sel);
      if !deleteFailed then DeleteOutcome([first], false)
      else if remediate then
        var enabled := Ready(false, sel);
        DeleteOutcome([first, Batch(DisableAction, enabled), Batch(DeleteAction, enabled)], true)
      else DeleteOutcome([first], true)
  }

  /** The remediation's two batches pair up: the i-th disable and the i-th
      delete target the same URL, and every disable comes before every
      delete because the batches run one after the other. */
  lemma RemediationPairsDisableWithDelete(sel: seq<AdminServiceRecord>)
    ensures |OnDelete(sel, true, true, true).batches[1]| == |OnDelete(sel, true, true, true).batches[2]|
    ensures forall i :: 0 <= i < |OnDelete(sel, true, true, true).batches[1]| ==>
      var url := OnDelete(sel, true, true, true).batches[1][i].url;
      OnDelete(sel, true, true, true).batches[1][i] == Disable(url) &&
      OnDelete(sel, true, true, true).batches[2][i] == Remove(url)
  {
  }

  /** The remediation disables exactly the enabled records of the
      selection: every disable targets one, and every one is targeted. */
  lemma RemediationTargetsExactlyEnabled(sel: seq<AdminServiceRecord>)
    ensures forall q :: q in OnDelete(sel, true, true, true).batches[1] ==>
      exists i :: 0 <= i < |sel| && sel[i].href == q.url && sel[i].enabled
    ensures forall i :: 0 <= i < |sel| && sel[i].enabled ==>
      Disable(sel[i].href) in OnDelete(sel, true, true, true).batches[1]
  {
    var batch := OnDelete(sel, true, true, true).batches[1];
    var enabled := Ready(false, sel);
    assert batch == Batch(DisableAction, enabled);
    ReadyMembers(false, sel);
    forall q | q in batch
      ensures exists i :: 0 <= i < |sel| && sel[i].href == q.url && sel[i].enabled
    {
      var k :| 0 <= k < |batch| && batch[k] == q;
      assert enabled[k] in enabled;
      var i :| 0 <= i < |sel| && sel[i] == enabled[k];
    }
    forall i | 0 <= i < |sel| && sel[i].enabled
      ensures Disable(sel[i].href) in batch
    {
      assert sel[i] in enabled;
      var k :| 0 <= k < |enabled| && enabled[k] == sel[i];
      assert batch[k] == Disable(sel[i].href);
    }
  }

  // ---------------------------------------------------------------------
  // Worked examples
  // ---------------------------------------------------------------------

  function Record(href: string, enabled: bool): AdminServiceRecord {
    AdminServiceRecord(enabled, "vcdext", false, href, "ns", 0.0, "key", href)
  }

  /** Enabling [A (enabled), B (disabled)]: the prompt reports "1 of 2", and
      accepting it sends one request, for B. */
  lemma MixedSelectionEnableExample()
    ensures OnEnable([Record("A", true), Record("B", false)], true, true)
         == Prompted(1, 2, [Enable("B")])
    ensures OnEnable([Record("A", true), Record("B", false)], true, false)
         == Prompted(1, 2, [])
  {
    assert Ready(true, [Record("A", true), Record("B", false)]) == [Record("B", false)];
  }

  /** Enabling a single record that is already enabled closes silently, but
      two already-enabled records show the informational dialog. */
  lemma AlreadyEnabledExamples()
    ensures OnEnable([Record("A", true)], true, true) == Closed
    ensures OnEnable([Record("A", true), Record("B", true)], true, true) == AllAlready
  {
  }
}
