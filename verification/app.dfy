/**
 * The fall monitor's component state and its handlers: one frame's
 * prediction (`predict`), the notification throttle (`checkAndSendEmail`)
 * and the settings form (`handleSaveSettings`).
 *
 * Browser storage is represented by fields: `storedEmail` is the
 * `targetEmail` storage entry, and `lastSentTime` stands for both the
 * in-memory reference and its `lastSentTime` storage copy, which the code
 * always writes together; the storage copy is read back only when the
 * component is created, so the state here is that of one component
 * instance. The e-mail service is represented by `outbox`,
 * the e-mails handed to it, oldest first.
 */
module MimamoriApp {
  import opened Detection
  import opened Throttle

  /** The part of the state the settings form changes. */
  datatype Settings = Settings(targetEmail: string, storedEmail: Option<string>, isSettingsMode: bool)

  /** Value of an optional storage entry, with an absent entry read as empty. */
  function OrEmpty(stored: Option<string>): (value: string)
  {
    if stored.Some? then stored.value else ""
  }

  /** The component state mirrors the storage entry it was loaded from. */
  ghost predicate Mirrors(s: Settings)
  {
    s.targetEmail == OrEmpty(s.storedEmail)
  }

  /**
   * `handleSaveSettings` on the settings part of the state: an input
   * without '@' is rejected and changes nothing; otherwise it becomes the
   * target, is stored, and the settings form is left.
   */
  function Save(s: Settings, input: string): (r: Settings)
    ensures r != s ==> '@' in input
    ensures '@' in input ==> r.storedEmail == Some(input) && r.targetEmail == input && !r.isSettingsMode
    ensures '@' in input ==> HasAddress(r.storedEmail)
  {
    if '@' !in input then s else Settings(input, Some(input), false)
  }

  /** Saving keeps the component state in step with storage. */
  lemma SaveMirrors(s: Settings, input: string)
    requires Mirrors(s)
    ensures Mirrors(Save(s, input))
  {
  }

  /** Saving the same input twice gives the same state as saving it once. */
  lemma SaveIdempotent(s: Settings, input: string)
    ensures Save(Save(s, input), input) == Save(s, input)
  {
  }

  /** The last accepted save wins: an earlier save leaves no trace. */
  lemma SaveLastWins(s: Settings, first: string, second: string)
    requires '@' in second
    ensures Save(Save(s, first), second) == Save(s, second)
  {
  }

  class App {
    var targetEmail: string
    var isSettingsMode: bool
    var storedEmail: Option<string>
    var lastSentTime: int
    var currentClass: string
    var probability: int
    var isAlert: bool
    var outbox: seq<Email>

    function CurrentSettings(): (s: Settings)
      reads this
    {
      Settings(targetEmail, storedEmail, isSettingsMode)
    }

    /**
     * The state invariant: the target mirrors storage, every e-mail sent
     * went to an address above the confidence threshold, any two sends are
     * more than the cooldown apart, and the last send is the locked time.
     */
    ghost predicate Valid()
      reads this
    {
      && Mirrors(CurrentSettings())
      && Admissible(outbox)
      && Spaced(outbox)
      && (|outbox| > 0 ==> outbox[|outbox| - 1].sentAt == lastSentTime)
    }

    /**
     * At most one notification per cooldown window: in every valid state,
     * any two e-mails handed to the dispatcher are more than the cooldown
     * apart, whatever the order or the times of the calls that sent them.
     */
    lemma NotificationsSpaced()
      requires Valid()
      ensures forall i, j :: 0 <= i < j < |outbox| ==> outbox[j].sentAt - outbox[i].sentAt > CooldownTime
      ensures forall i :: 0 <= i < |outbox| ==> outbox[i].sentAt <= lastSentTime
    {
      SpacedPairwise(outbox);
    }

    /**
     * The component's first render: the target and the last send time are
     * read from storage (an absent send time reads as 0), and the settings
     * form is shown exactly when no non-empty target is stored.
     */
    constructor (stored: Option<string>, storedLastSentTime: Option<int>)
      ensures Valid()
      ensures targetEmail == OrEmpty(stored) && storedEmail == stored
      ensures isSettingsMode == !HasAddress(stored)
      ensures lastSentTime == (if storedLastSentTime.Some? then storedLastSentTime.value else 0)
      ensures currentClass == "---" && probability == 0 && !isAlert
      ensures outbox == []
    {
      targetEmail := OrEmpty(stored);
      isSettingsMode := !HasAddress(stored);
      storedEmail := stored;
      lastSentTime := if storedLastSentTime.Some? then storedLastSentTime.value else 0;
      currentClass := "---";
      probability := 0;
      isAlert := false;
      outbox := [];
    }

    /**
     * `checkAndSendEmail`: reads the address from storage, takes the branch
     * the three guards select, and on success locks the window at `now`
     * before handing the e-mail to the dispatcher.
     */
    method CheckAndSendEmail(confidence: int, now: int) returns (d: Decision)
      requires Valid()
      modifies this`lastSentTime, this`outbox
      ensures Valid()
      ensures d == Decide(confidence, storedEmail, now, old(lastSentTime))
      ensures d == Send ==>
        lastSentTime == now && outbox == old(outbox) + [Email(storedEmail.value, confidence, now)]
      ensures d != Send ==> lastSentTime == old(lastSentTime) && outbox == old(outbox)
    {
      d := Decide(confidence, storedEmail, now, lastSentTime);
      if d == Send {
        // lock the window first, then hand the e-mail to the dispatcher
        lastSentTime := now;
        var email := Email(storedEmail.value, confidence, now);
        SpacedAppend(outbox, email);
        outbox := outbox + [email];
      }
    }

    /**
     * `predict` after the pose model has answered: selects the best class,
     * shows it with its rounded percentage, raises the alert exactly for a
     * fall label, and consults the throttle only while the alert is raised.
     */
    method Predict(preds: seq<Prediction>, now: int)
      requires Valid()
      modifies this
      ensures Valid()
      ensures IsFirstMaximum(preds, Best(BestClass(preds).probability, currentClass))
      ensures currentClass == BestClass(preds).className
      ensures probability == ProbPercent(BestClass(preds).probability)
      ensures isAlert <==> IsFallLabel(currentClass)
      ensures CurrentSettings() == old(CurrentSettings())
      ensures !isAlert ==> lastSentTime == old(lastSentTime) && outbox == old(outbox)
      ensures isAlert && Decide(probability, storedEmail, now, old(lastSentTime)) == Send ==>
        lastSentTime == now && outbox == old(outbox) + [Email(storedEmail.value, probability, now)]
      ensures isAlert && Decide(probability, storedEmail, now, old(lastSentTime)) != Send ==>
        lastSentTime == old(lastSentTime) && outbox == old(outbox)
    {
      var highestProb, bestClassName := SelectBest(preds);
      currentClass := bestClassName;
      var probPercent := ProbPercent(highestProb);
      probability := probPercent;
      if IsFallLabel(bestClassName) {
        isAlert := true;
        var _ := CheckAndSendEmail(probPercent, now);
      } else {
        isAlert := false;
      }
    }

    /**
     * `handleSaveSettings`: an input containing '@' becomes the stored
     * target and leaves the settings form; any other input is rejected and
     * nothing changes.
     */
    method SaveSettings(inputEmail: string) returns (saved: bool)
      requires Valid()
      modifies this`targetEmail, this`storedEmail, this`isSettingsMode
      ensures Valid()
      ensures saved <==> '@' in inputEmail
      ensures CurrentSettings() == Save(old(CurrentSettings()), inputEmail)
      ensures saved ==> targetEmail == inputEmail && storedEmail == Some(inputEmail) && !isSettingsMode
      ensures !saved ==> unchanged(this)
    {
      if '@' !in inputEmail {
        return false;
      }
      targetEmail := inputEmail;
      storedEmail := Some(inputEmail);
      isSettingsMode := false;
      saved := true;
    }
  }
}
