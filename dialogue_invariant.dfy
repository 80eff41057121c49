/**
 * What stays true between two user actions.  The rendered transcript turns
 * an option message into a clickable button while showOptions holds, and a
 * confirmation message into one while showConfirmButtons holds; the
 * invariant says those buttons only ever offer the current step's choices.
 */
module DialogueInvariant {
  import opened DonorRecord
  import opened Transcript
  import opened DonationLink
  import opened Dialogue

  predicate NoOptions(ms: seq<Message>)
  {
    forall m :: m in ms ==> !m.isOption
  }

  predicate NoButtons(ms: seq<Message>)
  {
    forall m :: m in ms ==> !m.isButton
  }

  /** Every confirmation button in the transcript reads "Yes" or "Information is Incorrect". */
  predicate OnlyConfirmButtons(ms: seq<Message>)
  {
    forall m :: m in ms && m.isButton ==> m.text == ConfirmYes || m.text == ConfirmNo
  }

  /** The steps the component waits in for the visitor; the others are passed through within one action. */
  predicate Waits(t: Step)
  {
    !(t == Intro || t == Volunteer || t == Contact || t == ProvideLink)
  }

  /** Rendered as a clickable option: an option message while the options are shown. */
  predicate ClickableOption(s: Session, i: int)
  {
    0 <= i < |s.messages| && s.messages[i].isOption && s.showOptions
  }

  /** Rendered as a clickable confirmation button: not a shown option, not a link, a button while the buttons are shown. */
  predicate ClickableButton(s: Session, i: int)
  {
    0 <= i < |s.messages| && !ClickableOption(s, i) && !s.messages[i].isLink
    && s.messages[i].isButton && s.showConfirmButtons
  }

  predicate Settled(s: Session)
  {
    && Waits(s.step)
    && OnlyConfirmButtons(s.messages)
    && (s.step == Options ==>
          s.showOptions && |s.messages| >= 5
          && s.messages[|s.messages| - 5..] == Menu()
          && NoOptions(s.messages[..|s.messages| - 5]))
    && (s.step != Options ==> NoOptions(s.messages))
    && (s.step == ConfirmInfo ==>
          s.showConfirmButtons && |s.messages| >= 3
          && s.messages[|s.messages| - 3..] == [Bot(Summary(s.info)), ConfirmButton(ConfirmYes), ConfirmButton(ConfirmNo)])
    && (s.step != ConfirmInfo && s.showConfirmButtons ==> NoButtons(s.messages))
    && (s.step != ConfirmInfo && |s.messages| > 0 ==> !s.messages[|s.messages| - 1].isButton)
  }

  /** The transcript ends in a confirmation button only at the confirmation step. */
  lemma ButtonLastOnlyAtConfirmation(s: Session)
    requires Settled(s) && |s.messages| > 0 && s.messages[|s.messages| - 1].isButton
    ensures s.step == ConfirmInfo
  {
  }

  lemma MountSettled()
    ensures Settled(Mount())
  {
    MountShowsMenu();
    MenuSettled(Mount(), [Bot(Welcome)]);
  }

  /** The option filter keeps only messages it was given. */
  lemma FilterKeepsMembers(ms: seq<Message>)
    ensures forall m :: m in WithoutOptions(ms) ==> m in ms
    ensures NoOptions(WithoutOptions(ms))
  {
    forall m | m in WithoutOptions(ms)
      ensures m in ms && !m.isOption
    {
      WithoutOptionsCounts(ms, m);
    }
  }

  /** A waiting step other than options and the confirmation, over a transcript with no options and no stray buttons. */
  lemma PlainSettled(r: Session, prefix: seq<Message>, extra: seq<Message>)
    requires Waits(r.step) && r.step != Options && r.step != ConfirmInfo
    requires r.messages == prefix + extra
    requires NoOptions(prefix) && OnlyConfirmButtons(prefix) && (r.showConfirmButtons ==> NoButtons(prefix))
    requires NoOptions(extra) && NoButtons(extra) && |extra| > 0
    ensures Settled(r)
  {
    assert r.messages[|r.messages| - 1] == extra[|extra| - 1];
    assert extra[|extra| - 1] in extra;
  }

  /** The options step with the menu last and no option before it. */
  lemma MenuSettled(r: Session, prefix: seq<Message>)
    requires r.step == Options && r.showOptions && r.messages == prefix + Menu()
    requires NoOptions(prefix) && OnlyConfirmButtons(prefix) && (r.showConfirmButtons ==> NoButtons(prefix))
    ensures Settled(r)
  {
    assert r.messages[..|r.messages| - 5] == prefix;
    assert r.messages[|r.messages| - 5..] == Menu();
    assert r.messages[|r.messages| - 1] == OptionButton("General Inquiries");
  }

  /** The confirmation step with the summary of the stored record and the two buttons last. */
  lemma ConfirmSettled(r: Session, prefix: seq<Message>)
    requires r.step == ConfirmInfo && r.showConfirmButtons
    requires r.messages == prefix + [Bot(SummaryIntro), Bot(Summary(r.info)), ConfirmButton(ConfirmYes), ConfirmButton(ConfirmNo)]
    requires NoOptions(prefix) && OnlyConfirmButtons(prefix)
    ensures Settled(r)
  {
    assert r.messages[|r.messages| - 3..] == [Bot(Summary(r.info)), ConfirmButton(ConfirmYes), ConfirmButton(ConfirmNo)];
  }

  /** Choosing an option in the options step leads to a settled state. */
  lemma SelectOptionSettles(s: Session, option: string)
    requires s.step == Options && OnlyConfirmButtons(s.messages)
    requires s.showConfirmButtons ==> NoButtons(s.messages)
    ensures Settled(SelectOption(s, option))
  {
    var r := SelectOption(s, option);
    var kept := WithoutOptions(s.messages);
    SelectOptionOutcome(s, option);
    FilterKeepsMembers(s.messages);
    var choice := Lower(option);
    if choice == "donate" {
      PlainSettled(r, kept, [Bot(DonateStart)]);
    } else if choice == "volunteer" {
      PlainSettled(r, kept, [Bot(VolunteerReply)]);
    } else if choice == "contact" {
      PlainSettled(r, kept, [Bot(ContactReply)]);
    } else if choice == "general inquiries" {
      PlainSettled(r, kept, [Bot(GeneralReply)]);
    } else {
      MenuSettled(r, kept + [Bot(Unrecognized)]);
    }
  }

  /** Answering a donation question leads to a settled state. */
  lemma QuestionSettles(s: Session, input: string, i: nat)
    requires i < 7 && s.step == Questions[i]
    requires OnlyConfirmButtons(s.messages) && NoOptions(s.messages)
    requires s.showConfirmButtons ==> NoButtons(s.messages)
    ensures Settled(Process(s, input))
  {
    if i < 6 {
      AnswerSettles(s, input, i);
    } else {
      SummarySettles(s, input);
    }
  }

  lemma AnswerSettles(s: Session, input: string, i: nat)
    requires i < 6 && s.step == Questions[i]
    requires OnlyConfirmButtons(s.messages) && NoOptions(s.messages)
    requires s.showConfirmButtons ==> NoButtons(s.messages)
    ensures Settled(Process(s, input))
  {
    QuestionOutcome(s, input, i);
    AnsweredSettled(s, Process(s, input), i);
  }

  lemma AnsweredSettled(s: Session, r: Session, i: nat)
    requires i < 6 && r.step == Questions[i + 1] && r.messages == s.messages + [Bot(Prompts[i])]
    requires r.showConfirmButtons == s.showConfirmButtons
    requires OnlyConfirmButtons(s.messages) && NoOptions(s.messages)
    requires s.showConfirmButtons ==> NoButtons(s.messages)
    ensures Settled(r)
  {
    PlainSettled(r, s.messages, [Bot(Prompts[i])]);
  }

  lemma SummarySettles(s: Session, input: string)
    requires s.step == AskZip
    requires OnlyConfirmButtons(s.messages) && NoOptions(s.messages)
    ensures Settled(Process(s, input))
  {
    QuestionOutcome(s, input, 6);
    ConfirmSettled(Process(s, input), s.messages);
  }

  /** The state after the visitor accepts the summary, for whatever link was produced. */
  lemma LinkSettled(before: seq<Message>, info: DonationInfo, link: string)
    requires OnlyConfirmButtons(before) && NoOptions(before)
    ensures Settled(Session(Options, info, before + [Bot(LinkIntro), LinkMessage(link), Bot(Thanks)] + Menu(), true, false))
  {
    var told := before + [Bot(LinkIntro), LinkMessage(link), Bot(Thanks)];
    MenuSettled(Session(Options, info, told + Menu(), true, false), told);
  }

  /** Answering the confirmation leads to a settled state. */
  lemma ConfirmationSettles(s: Session, input: string)
    requires s.step == ConfirmInfo
    requires OnlyConfirmButtons(s.messages) && NoOptions(s.messages)
    ensures Settled(Process(s, input))
  {
    if Lower(input) == "yes" {
      ConfirmAccepted(s, input);
      LinkSettled(s.messages, s.info, GenerateDonationLink(s.info));
    } else {
      ConfirmRejected(s, input);
      PlainSettled(Session(Donate, Empty, s.messages + [Bot(StartOver)], s.showOptions, false), s.messages, [Bot(StartOver)]);
    }
  }

  /** Processing an input in a waiting step, once the visitor's own message is in, leads to a settled state. */
  lemma ProcessSettles(e: Session, input: string)
    requires Waits(e.step) && OnlyConfirmButtons(e.messages)
    requires e.step != Options ==> NoOptions(e.messages)
    requires e.step != ConfirmInfo && e.showConfirmButtons ==> NoButtons(e.messages)
    ensures Settled(Process(e, input))
  {
    match e.step {
      case Options => SelectOptionSettles(e, input);
      case Chat => PlainSettled(Process(e, input), e.messages, [Bot(ChatReply)]);
      case Donate =>
        DonateAsksFirstName(e, input);
        QuestionSettles(e.(step := AskFirstName), input, 0);
      case AskFirstName => QuestionSettles(e, input, 0);
      case AskLastName => QuestionSettles(e, input, 1);
      case AskEmail => QuestionSettles(e, input, 2);
      case AskAddress => QuestionSettles(e, input, 3);
      case AskCity => QuestionSettles(e, input, 4);
      case AskState => QuestionSettles(e, input, 5);
      case AskZip => QuestionSettles(e, input, 6);
      case ConfirmInfo => ConfirmationSettles(e, input);
    }
  }

  /** Every input the visitor sends in a settled state leads to a settled state. */
  lemma UserInputSettles(s: Session, input: string)
    requires Settled(s)
    ensures Settled(UserInput(s, input))
  {
    var e := Emit(s, [User(input)]);
    assert e.messages == s.messages + [User(input)];
    ProcessSettles(e, input);
  }

  /** A settled state stays settled whatever the visitor types. */
  lemma {:induction false} RunSettles(s: Session, inputs: seq<string>)
    requires Settled(s)
    ensures Settled(Run(s, inputs))
    decreases |inputs|
  {
    if inputs != [] {
      UserInputSettles(s, inputs[0]);
      RunSettles(UserInput(s, inputs[0]), inputs[1..]);
    }
  }

  /** A clickable option is only ever one of the four menu entries, offered at the options step. */
  lemma ClickableOptionIsMenuEntry(s: Session, i: int)
    requires Settled(s) && ClickableOption(s, i)
    ensures s.step == Options
    ensures s.messages[i].text in {"Donate", "Volunteer", "Contact", "General Inquiries"}
  {
    var ms := s.messages;
    assert ms[i] in ms;
    var n := |ms| - 5;
    assert ms[i] == ms[n..][i - n];
  }

  /** The menu entries, lower-cased, are the four choices the option handler knows. */
  lemma MenuEntriesLowered()
    ensures Lower("Donate") == "donate" && Lower("Volunteer") == "volunteer"
    ensures Lower("Contact") == "contact" && Lower("General Inquiries") == "general inquiries"
  {
  }

  /**
   * Clicking a clickable option therefore never reaches the "didn't
   * understand" reply: it always leaves the options step, for a settled state.
   */
  lemma ClickedOptionLeavesMenu(s: Session, i: int)
    requires Settled(s) && ClickableOption(s, i)
    ensures SelectOption(s, s.messages[i].text).step != Options
    ensures Settled(SelectOption(s, s.messages[i].text))
  {
    ClickableOptionIsMenuEntry(s, i);
    MenuEntriesLowered();
    var text := s.messages[i].text;
    SelectOptionOutcome(s, text);
    SelectOptionSettles(s, text);
  }

  /**
   * A clickable confirmation button is only ever offered at the confirmation
   * step, whose transcript ends with the summary of the stored record; "Yes"
   * produces the link to that record and "Information is Incorrect" starts
   * the questions over.
   */
  lemma ClickedButtonConfirms(s: Session, i: int)
    requires Settled(s) && ClickableButton(s, i)
    ensures s.step == ConfirmInfo
    ensures s.messages[|s.messages| - 3] == Bot(Summary(s.info))
    ensures s.messages[i].text == ConfirmYes ==>
      s.messages + [User(ConfirmYes), Bot(LinkIntro), LinkMessage(GenerateDonationLink(s.info))] <= UserInput(s, ConfirmYes).messages
    ensures s.messages[i].text == ConfirmNo ==> UserInput(s, ConfirmNo).step == Donate && UserInput(s, ConfirmNo).info == Empty
  {
    var ms := s.messages;
    assert ms[i] in ms;
    assert s.messages[|s.messages| - 3..][0] == Bot(Summary(s.info));
    if ms[i].text == ConfirmYes {
      YesGivesLink(s);
    } else {
      IncorrectRestarts(s);
    }
  }

  /** Sending "Yes" at the confirmation puts the link intro and then the link to the stored record right after the visitor's message. */
  lemma YesGivesLink(s: Session)
    requires s.step == ConfirmInfo
    ensures s.messages + [User(ConfirmYes), Bot(LinkIntro), LinkMessage(GenerateDonationLink(s.info))] <= UserInput(s, ConfirmYes).messages
  {
    var e := Emit(s, [User(ConfirmYes)]);
    assert Lower(ConfirmYes) == "yes";
    var link := GenerateDonationLink(s.info);
    ConfirmAccepted(e, ConfirmYes);
    assert UserInput(s, ConfirmYes).messages == e.messages + [Bot(LinkIntro), LinkMessage(link), Bot(Thanks)] + Menu();
    LinkLeadsReply(s.messages, link, Menu());
  }

  lemma LinkLeadsReply(ms: seq<Message>, link: string, rest: seq<Message>)
    ensures ms + [User(ConfirmYes), Bot(LinkIntro), LinkMessage(link)]
      <= ms + [User(ConfirmYes)] + [Bot(LinkIntro), LinkMessage(link), Bot(Thanks)] + rest
  {
    var head := ms + [User(ConfirmYes), Bot(LinkIntro), LinkMessage(link)];
    assert ms + [User(ConfirmYes)] + [Bot(LinkIntro), LinkMessage(link), Bot(Thanks)] + rest == head + ([Bot(Thanks)] + rest);
  }

  /**
   * Confirmation buttons are never taken out of the transcript.  After a
   * rejected summary and seven new answers, the "Yes" button under the
   * rejected summary is clickable again, and clicking it confirms the new
   * record (ClickedButtonConfirms).
   */
  lemma RejectedButtonsReturn(s: Session, answers: seq<string>)
    requires s.step == ConfirmInfo && |s.messages| >= 2 && s.messages[|s.messages| - 2] == ConfirmButton(ConfirmYes)
    requires |answers| == 7
    ensures var r := Run(UserInput(s, ConfirmNo), answers);
      && r.step == ConfirmInfo
      && r.info == DonationInfo(answers[0], answers[1], answers[2], answers[3], answers[4], answers[5], answers[6])
      && |s.messages| - 2 < |r.messages| - 3
      && ClickableButton(r, |s.messages| - 2)
      && r.messages[|s.messages| - 2].text == ConfirmYes
  {
    var e := Emit(s, [User(ConfirmNo)]);
    assert Lower(ConfirmNo) != "yes" by { assert |Lower(ConfirmNo)| != 3; }
    ConfirmRejected(e, ConfirmNo);
    var rejected := UserInput(s, ConfirmNo);
    assert rejected.messages == s.messages + [User(ConfirmNo), Bot(StartOver)];
    SevenAnswers(rejected, answers);
    var r := Run(rejected, answers);
    var k := |s.messages| - 2;
    assert r.messages[k] == rejected.messages[k];
  }

  /** Sending "Information is Incorrect" at the confirmation empties the record and goes back to the donate step. */
  lemma IncorrectRestarts(s: Session)
    requires s.step == ConfirmInfo
    ensures UserInput(s, ConfirmNo).step == Donate && UserInput(s, ConfirmNo).info == Empty
  {
    var e := Emit(s, [User(ConfirmNo)]);
    assert Lower(ConfirmNo) != "yes" by { assert |Lower(ConfirmNo)| != 3; }
    ConfirmRejected(e, ConfirmNo);
  }
}
