/** The status machine of a download task (downloads/state.py). */
module DownloadState {
  import opened Wrappers

  datatype Status = Submitting | Submitted | Downloading | Completed | Failed | AttentionRequired

  /** The table `_ALLOWED`. */
  function Allowed(current: Status): set<Status> {
    match current
    case Submitting => {Submitted, Downloading, Completed, Failed, AttentionRequired}
    case Submitted => {Downloading, Completed, Failed, AttentionRequired}
    case Downloading => {Completed, Failed, AttentionRequired}
    case AttentionRequired => {Submitted, Downloading, Completed, Failed}
    case Completed => {}
    case Failed => {}
  }

  predicate Terminal(status: Status) {
    status == Completed || status == Failed
  }

  predicate Active(status: Status) {
    !Terminal(status)
  }

  datatype TransitionError = InvalidStatusTransition

  predicate Due(now: Option<int>, attentionAfter: Option<int>) {
    now.Some? && attentionAfter.Some? && now.value >= attentionAfter.value
  }

  /** `transition_status`. */
  function Transition(current: Status, target: Option<Status>, reliable: bool,
                      now: Option<int>, attentionAfter: Option<int>): Result<Status, TransitionError> {
    if target.None? || !reliable then
      if Due(now, attentionAfter) && !Terminal(current) then Ok(AttentionRequired) else Ok(current)
    else if target.value == current then Ok(current)
    else if target.value !in Allowed(current) then Err(InvalidStatusTransition)
    else Ok(target.value)
  }

  /** One step of a status history: stay, or follow the table. */
  predicate Follows(before: Status, after: Status) {
    before == after || after in Allowed(before)
  }

  /** Whatever the evidence, the answer follows the table and never leaves a terminal status. */
  lemma TransitionFollows(current: Status, target: Option<Status>, reliable: bool, now: Option<int>,
                          attentionAfter: Option<int>)
    ensures var r := Transition(current, target, reliable, now, attentionAfter);
            && (r.Ok? ==> Follows(current, r.value))
            && (Terminal(current) && r.Ok? ==> r.value == current)
            && (r.Err? <==> target.Some? && reliable && target.value != current && target.value !in Allowed(current))
  {
  }

  /**
   * What the table forbids: leaving a finished task, going back to submitting, and going back from
   * downloading to submitted. Without reliable evidence only the deadline moves a status.
   */
  lemma TransitionOutcome(current: Status, target: Option<Status>, reliable: bool, now: Option<int>,
                          attentionAfter: Option<int>)
    ensures var r := Transition(current, target, reliable, now, attentionAfter);
            && (reliable && target.Some? ==>
                  if target.value != current && (current == Completed || current == Failed
                                                 || target.value == Submitting
                                                 || (current == Downloading && target.value == Submitted))
                  then r == Err(InvalidStatusTransition) else r == Ok(target.value))
            && (!reliable || target.None? ==>
                  if now.Some? && attentionAfter.Some? && now.value >= attentionAfter.value
                     && current != Completed && current != Failed
                  then r == Ok(AttentionRequired) else r == Ok(current))
  {
  }
}
