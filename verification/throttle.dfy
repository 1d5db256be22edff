/**
 * The e-mail notification throttle of the fall monitor: the three guards of
 * `checkAndSendEmail` in the order the code tests them, and the log of
 * e-mails handed to the dispatcher together with the spacing every such log
 * keeps.
 *
 * Times are integer milliseconds (the values of `Date.now()`).
 */
module Throttle {

  datatype Option<T> = None | Some(value: T)

  /** A notification is sent only above this confidence percentage. */
  const ConfidenceThreshold: int := 90

  /** Minimum time in milliseconds between two notifications (ten minutes). */
  const CooldownTime: int := 600000

  /** Which branch of `checkAndSendEmail` was taken. */
  datatype Decision =
    | LowConfidence   // confidence at or below the threshold: ignored
    | NoAddress       // no destination stored: warning, nothing sent
    | CoolingDown     // still inside the cooldown window: nothing sent
    | Send            // window locked and the e-mail handed to the dispatcher

  /** One e-mail handed to the dispatcher: recipient, confidence percentage, time. */
  datatype Email = Email(to: string, probability: int, sentAt: int)

  predicate Confident(confidence: int)
  {
    confidence > ConfidenceThreshold
  }

  /** The stored address is present and not empty (JavaScript truthiness). */
  predicate HasAddress(email: Option<string>)
  {
    email.Some? && email.value != ""
  }

  /** Strictly more than the cooldown has passed since the last send. */
  predicate CooledDown(now: int, lastSentTime: int)
  {
    now - lastSentTime > CooldownTime
  }

  /**
   * The guards of `checkAndSendEmail`, tested in order: confidence, then the
   * address, then the cooldown.
   */
  function Decide(confidence: int, email: Option<string>, now: int, lastSentTime: int): (d: Decision)
    ensures d == Send <==> Confident(confidence) && HasAddress(email) && CooledDown(now, lastSentTime)
    ensures confidence <= ConfidenceThreshold ==> d == LowConfidence
    ensures Confident(confidence) && !HasAddress(email) ==> d == NoAddress
    ensures Confident(confidence) && HasAddress(email) && !CooledDown(now, lastSentTime) ==> d == CoolingDown
    ensures now - lastSentTime <= CooldownTime ==> d != Send
  {
    if confidence <= ConfidenceThreshold then LowConfidence
    else if !HasAddress(email) then NoAddress
    else if now - lastSentTime <= CooldownTime then CoolingDown
    else Send
  }

  /**
   * Once a send has locked the window at `now`, no call at a time up to and
   * including `now + CooldownTime` sends again, whatever its confidence and
   * address; in particular an immediate second call at the same `now` does not.
   */
  lemma NoSecondSendInWindow(confidence: int, email: Option<string>, now: int, later: int)
    requires later <= now + CooldownTime
    ensures Decide(confidence, email, later, now) != Send
  {
  }

  /** Consecutive entries of a dispatch log lie more than the cooldown apart. */
  ghost predicate Spaced(log: seq<Email>)
  {
    forall i :: 0 < i < |log| ==> log[i].sentAt - log[i - 1].sentAt > CooldownTime
  }

  /** Every logged e-mail went to a non-empty address with a confidence above the threshold. */
  ghost predicate Admissible(log: seq<Email>)
  {
    forall i :: 0 <= i < |log| ==> Confident(log[i].probability) && log[i].to != ""
  }

  /** Appending a send cleared at `now` against the log's last time keeps the log spaced. */
  lemma SpacedAppend(log: seq<Email>, e: Email)
    requires Spaced(log)
    requires |log| > 0 ==> CooledDown(e.sentAt, log[|log| - 1].sentAt)
    ensures Spaced(log + [e])
  {
  }

  /**
   * At most one notification per cooldown window: in a spaced log ANY two
   * entries, not only neighbours, are more than the cooldown apart, and the
   * later entry has the later time.
   */
  lemma {:induction false} SpacedPairwise(log: seq<Email>)
    requires Spaced(log)
    ensures forall i, j :: 0 <= i < j < |log| ==> log[j].sentAt - log[i].sentAt > CooldownTime
    decreases |log|
  {
    if |log| > 1 {
      var n := |log|;
      var init := log[..n - 1];
      assert Spaced(init) by {
        forall i | 0 < i < |init| ensures init[i].sentAt - init[i - 1].sentAt > CooldownTime {
          assert init[i] == log[i] && init[i - 1] == log[i - 1];
        }
      }
      SpacedPairwise(init);
      forall i, j | 0 <= i < j < n
        ensures log[j].sentAt - log[i].sentAt > CooldownTime
      {
        if j < n - 1 {
          assert log[i] == init[i] && log[j] == init[j];
        } else if i < n - 2 {
          assert log[i] == init[i] && log[n - 2] == init[n - 2];
          assert log[n - 2].sentAt - log[i].sentAt > CooldownTime;
        }
      }
    }
  }
}
