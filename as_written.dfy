/**
 * Two handler paths as the component's code literally runs them, where a
 * handler reads state through the closure of the render it was created in
 * and so sees values from before its own updates.  The Dialogue module
 * models the evidently intended behaviour instead; the lemmas here exhibit
 * the difference.
 */
module AsWritten {
  import opened DonorRecord
  import opened Transcript
  import opened DonationLink
  import opened Dialogue

  datatype Outcome = Overflow | Done(s: Session)

  /**
   * processUserInput as written.  It dispatches on `seen`, the step in the
   * closure of the render it was created in, while every update lands on the
   * current state `s`.  At the options step it hands the input to
   * handleOptionSelection; at any other step it reads the current step and
   * runs as the modelled handler does.  `depth` is the call stack left.
   */
  function ProcessAsWritten(s: Session, seen: Step, input: string, depth: nat): Outcome
    requires seen == Options || seen == s.step
    decreases depth
  {
    if depth == 0 then Overflow
    else if seen == Options then SelectOptionAsWritten(s, seen, input, depth - 1)
    else Done(Process(s, input))
  }

  /**
   * handleOptionSelection as written, created in a render at the options
   * step.  For volunteer and contact it sets the step and calls
   * processUserInput at once, and that call still sees `seen`, the options
   * step, so the choice goes straight back to handleOptionSelection.  When
   * the stack runs out, the call ends in a stack overflow, and the volunteer
   * or contact reply is never added.
   */
  function SelectOptionAsWritten(s: Session, seen: Step, option: string, depth: nat): Outcome
    requires seen == Options
    decreases depth
  {
    if depth == 0 then Overflow
    else
      var cleared := s.(showOptions := false, messages := WithoutOptions(s.messages));
      var choice := Lower(option);
      if choice == "volunteer" then ProcessAsWritten(Enter(cleared, Volunteer), seen, "volunteer", depth - 1)
      else if choice == "contact" then ProcessAsWritten(Enter(cleared, Contact), seen, "contact", depth - 1)
      else Done(SelectOption(s, option))
  }

  /** As written, the volunteer and contact choices never finish, however deep the stack. */
  lemma {:induction false} ForwardNeverReturns(s: Session, option: string, depth: nat)
    requires Lower(option) == "volunteer" || Lower(option) == "contact"
    ensures SelectOptionAsWritten(s, Options, option, depth) == Overflow
    decreases depth
  {
    if depth > 1 {
      var cleared := s.(showOptions := false, messages := WithoutOptions(s.messages));
      if Lower(option) == "volunteer" {
        assert Lower("volunteer") == "volunteer";
        ForwardNeverReturns(Enter(cleared, Volunteer), "volunteer", depth - 2);
      } else {
        assert Lower("contact") == "contact";
        ForwardNeverReturns(Enter(cleared, Contact), "contact", depth - 2);
      }
    }
  }

  /**
   * Had processUserInput seen the step just set, the forwarded choice would
   * get its reply, which is what the modelled handler does.
   */
  lemma FreshStepReplies(s: Session, option: string, depth: nat)
    requires depth > 0 && (Lower(option) == "volunteer" || Lower(option) == "contact")
    ensures var cleared := s.(showOptions := false, messages := WithoutOptions(s.messages));
      var next := Enter(cleared, if Lower(option) == "volunteer" then Volunteer else Contact);
      ProcessAsWritten(next, next.step, Lower(option), depth) == Done(SelectOption(s, option))
  {
    ForwardIsProcess(s, option);
  }

  /** As written, every other choice behaves as the modelled handler does. */
  lemma OtherChoicesAgree(s: Session, option: string, depth: nat)
    requires depth > 0 && Lower(option) != "volunteer" && Lower(option) != "contact"
    ensures SelectOptionAsWritten(s, Options, option, depth) == Done(SelectOption(s, option))
  {
  }

  /**
   * The ZIP answer as written: the summary is built from the record the
   * handler's closure saw, before the ZIP write lands.
   */
  function AskZipAsWritten(s: Session, input: string): Session
  {
    var stored := Enter(s.(info := s.info.(zip := input)), ConfirmInfo).(showConfirmButtons := true);
    Emit(stored, [Bot(SummaryIntro), Bot(Summary(s.info)), ConfirmButton(ConfirmYes), ConfirmButton(ConfirmNo)])
  }

  /**
   * As written, the summary's ZIP line shows the ZIP code the record held
   * before the answer (the empty string on a first donation), so it
   * disagrees with the stored record whenever the answer is a different one.
   */
  lemma StaleZipInSummary(s: Session, input: string)
    requires s.step == AskZip && input != s.info.zip
    ensures var r := AskZipAsWritten(s, input);
      && r.info.zip == input
      && r.messages[|s.messages| + 1] == Bot(Summary(r.info.(zip := s.info.zip)))
      && r.messages[|s.messages| + 1] != Bot(Summary(r.info))
  {
    var r := AskZipAsWritten(s, input);
    var head := SummaryHead(s.info);
    assert SummaryHead(r.info) == head;
    assert (head + s.info.zip)[|head|..] == s.info.zip;
    assert (head + input)[|head|..] == input;
  }

  /** The modelled handler instead shows the record exactly as stored, the new ZIP code included. */
  lemma SummaryShowsStoredRecord(s: Session, input: string)
    requires s.step == AskZip
    ensures var r := Process(s, input);
      && r.info == s.info.(zip := input)
      && r.messages[|s.messages| + 1] == Bot(Summary(r.info))
  {
    QuestionOutcome(s, input, 6);
  }
}
