/**
 * The scripted conversation of the campaign chatbot as values: the dialogue
 * step, the state the component keeps, and one function per handler that
 * gives the state after the handler from the state before it.  Every
 * assistant message is appended at once, in the order the handler emits it;
 * the typing delays are not modelled.
 */
module Dialogue {
  import opened DonorRecord
  import opened Transcript
  import opened DonationLink

  datatype Step =
    | Intro | Options | Chat | Donate | Volunteer | Contact
    | AskFirstName | AskLastName | AskEmail | AskAddress | AskCity | AskState | AskZip
    | ConfirmInfo | ProvideLink

  /** The component's state: currentStep, donationInfo, messages, showOptions, showConfirmButtons. */
  datatype Session = Session(
    step: Step,
    info: DonationInfo,
    messages: seq<Message>,
    showOptions: bool,
    showConfirmButtons: bool)

  // The fixed texts the component emits.
  const Welcome := "Welcome to Tom Emmer's campaign chatbot! How can I assist you today?"
  const MenuPrompt := "Please select an option:"
  const ChatReply := "I'm an AI assistant for Tom Emmer's campaign. How can I help you with your inquiry?"
  const VolunteerReply := "Thank you for your interest in volunteering! Please provide your name, email, and how you'd like to help."
  const ContactReply := "To get in touch with the campaign, please provide your name, email, and message. We'll get back to you as soon as possible."
  const NotSure := "I'm not sure how to handle that. Can you please try again?"
  const DonateStart := "Great! Let's start the donation process. What's your first name?"
  const GeneralReply := "Sure, I'd be happy to help with any general inquiries. What would you like to know about Tom Emmer's campaign?"
  const Unrecognized := "I'm sorry, I didn't understand that option. Please try again."
  const AskLastNamePrompt := "Thank you! Now, what's your last name?"
  const AskEmailPrompt := "Got it. What's your email address?"
  const AskAddressPrompt := "Thanks. What's your street address?"
  const AskCityPrompt := "Great. What city do you live in?"
  const AskStatePrompt := "And what state is that in? (Please use the two-letter abbreviation)"
  const AskZipPrompt := "Almost done! What's your ZIP code?"
  const SummaryIntro := "Great! Here's a summary of the information you provided. Is this correct?"
  const ConfirmYes := "Yes"
  const ConfirmNo := "Information is Incorrect"
  const LinkIntro := "Perfect! Here's your personalized donation link:"
  const Thanks := "Click the link above to complete your donation. Thank you for your support!"
  const StartOver := "I understand. Let's start over. What's your first name?"

  function Bot(text: string): Message { Message(text, false, false, false, false) }
  function User(text: string): Message { Message(text, true, false, false, false) }
  function OptionButton(text: string): Message { Message(text, false, true, false, false) }
  function LinkMessage(url: string): Message { Message(url, false, false, true, false) }
  function ConfirmButton(text: string): Message { Message(text, false, false, false, true) }

  /** What entering the options step shows: the prompt, then the four options. */
  function Menu(): seq<Message>
  {
    [Bot(MenuPrompt), OptionButton("Donate"), OptionButton("Volunteer"), OptionButton("Contact"), OptionButton("General Inquiries")]
  }

  /** The donation details listed one per line, as the summary message shows them. */
  function Summary(info: DonationInfo): string
  {
    SummaryHead(info) + info.zip
  }

  /** Every line of the summary but the ZIP code, which the summary ends with. */
  function SummaryHead(info: DonationInfo): string
  {
    "First Name: " + info.firstName + "\nLast Name: " + info.lastName + "\nEmail: " + info.email
    + "\nAddress: " + info.address + "\nCity: " + info.city + "\nState: " + info.state + "\nZIP: "
  }

  function LowerChar(c: char): char
  {
    if 'A' <= c <= 'Z' then (c as int - 'A' as int + 'a' as int) as char else c
  }

  /** toLowerCase on the ASCII letters; every other character is kept. */
  function Lower(s: string): (r: string)
    ensures |r| == |s|
    ensures forall i :: 0 <= i < |r| ==> !('A' <= r[i] <= 'Z')
    ensures forall i :: 0 <= i < |s| && !('A' <= s[i] <= 'Z') ==> r[i] == s[i]
  {
    seq(|s|, i requires 0 <= i < |s| => LowerChar(s[i]))
  }

  /** Appending messages in order, each at the end of the transcript. */
  function Emit(s: Session, ms: seq<Message>): Session
  {
    s.(messages := s.messages + ms)
  }

  /** The useState initial values. */
  function Initial(): Session
  {
    Session(Intro, Empty, [], true, true)
  }

  /** The effect that watches currentStep: intro greets and moves on to options, options shows the menu. */
  function StepEffect(s: Session): Session
  {
    match s.step
    case Intro => Emit(Emit(s, [Bot(Welcome)]).(step := Options), Menu())
    case Options => Emit(s, Menu())
    case _ => s
  }

  /** setCurrentStep(t), followed by the effect it sets off. */
  function Enter(s: Session, t: Step): (r: Session)
    ensures r.step == (if t == Intro then Options else t)
    ensures r.info == s.info && r.showOptions == s.showOptions && r.showConfirmButtons == s.showConfirmButtons
    ensures t == Intro ==> r.messages == s.messages + [Bot(Welcome)] + Menu()
    ensures t == Options ==> r.messages == s.messages + Menu()
    ensures t != Intro && t != Options ==> r.messages == s.messages
  {
    StepEffect(s.(step := t))
  }

  /** The state once the component has mounted. */
  function Mount(): Session
  {
    StepEffect(Initial())
  }

  /** processUserInput: what one input does in the current step. */
  function Process(s: Session, input: string): Session
  {
    match s.step
    case Donate | AskFirstName | AskLastName | AskEmail | AskAddress | AskCity | AskState | AskZip | ConfirmInfo =>
      DonationStep(s, input)
    case Options => SelectOption(s, input)
    case Chat | Volunteer | Contact | Intro | ProvideLink => Reply(s)
  }

  /** The steps processUserInput answers itself: a fixed reply, after volunteer and contact a move to chat. */
  function Reply(s: Session): Session
  {
    match s.step
    case Chat => Emit(s, [Bot(ChatReply)])
    case Volunteer => Enter(Emit(s, [Bot(VolunteerReply)]), Chat)
    case Contact => Enter(Emit(s, [Bot(ContactReply)]), Chat)
    case _ => Emit(s, [Bot(NotSure)])
  }

  /**
   * handleOptionSelection: hide the options, drop every option message, then
   * act on the lower-cased choice.  The volunteer and contact choices set
   * their step and then process the input in it, which is that step's reply.
   */
  function SelectOption(s: Session, option: string): Session
  {
    var cleared := s.(showOptions := false, messages := WithoutOptions(s.messages));
    var choice := Lower(option);
    if choice == "donate" then Emit(Enter(cleared, AskFirstName), [Bot(DonateStart)])
    else if choice == "volunteer" then Reply(Enter(cleared, Volunteer))
    else if choice == "contact" then Reply(Enter(cleared, Contact))
    else if choice == "general inquiries" then Emit(Enter(cleared, Chat), [Bot(GeneralReply)])
    else Enter(Emit(cleared, [Bot(Unrecognized)]), Options).(showOptions := true)
  }

  /** Store one answer, move to the next question and ask it. */
  function Answer(s: Session, info: DonationInfo, next: Step, prompt: string): Session
  {
    Emit(Enter(s.(info := info), next), [Bot(prompt)])
  }

  /** handleDonationStep: the donation questions, the summary and the confirmation. */
  function DonationStep(s: Session, input: string): Session
  {
    match s.step
    case Donate | AskFirstName => Answer(s, s.info.(firstName := input), AskLastName, AskLastNamePrompt)
    case AskLastName => Answer(s, s.info.(lastName := input), AskEmail, AskEmailPrompt)
    case AskEmail => Answer(s, s.info.(email := input), AskAddress, AskAddressPrompt)
    case AskAddress => Answer(s, s.info.(address := input), AskCity, AskCityPrompt)
    case AskCity => Answer(s, s.info.(city := input), AskState, AskStatePrompt)
    case AskState => Answer(s, s.info.(state := input), AskZip, AskZipPrompt)
    case AskZip => Summarize(s, input)
    case ConfirmInfo => Confirmation(s, input)
    case _ => Enter(Emit(s, [Bot(NotSure)]), Options)
  }

  /**
   * The ZIP answer: store it, move to the confirmation, open the
   * confirmation buttons and show the stored record with the two buttons.
   */
  function Summarize(s: Session, input: string): Session
  {
    var stored := Enter(s.(info := s.info.(zip := input)), ConfirmInfo).(showConfirmButtons := true);
    Emit(stored, [Bot(SummaryIntro), Bot(Summary(stored.info)), ConfirmButton(ConfirmYes), ConfirmButton(ConfirmNo)])
  }

  /**
   * The answer to the summary: the confirmation buttons close; "yes" in any
   * case gives the link to the stored record, anything else empties the
   * record and starts the questions over.
   */
  function Confirmation(s: Session, input: string): Session
  {
    var closed := s.(showConfirmButtons := false);
    if Lower(input) == "yes" then GiveLink(closed, GenerateDonationLink(closed.info))
    else Emit(Enter(closed, Donate).(info := Empty), [Bot(StartOver)])
  }

  /** The provide-link step: the link between its intro and the thanks, then the menu again. */
  function GiveLink(s: Session, link: string): Session
  {
    var told := Emit(Enter(s, ProvideLink), [Bot(LinkIntro), LinkMessage(link), Bot(Thanks)]);
    Enter(told.(showOptions := true), Options)
  }

  /** handleUserInput: the visitor's message goes into the transcript, then the input is processed. */
  function UserInput(s: Session, input: string): Session
  {
    Process(Emit(s, [User(input)]), input)
  }

  /** The state after a visitor sends the inputs one after another. */
  function Run(s: Session, inputs: seq<string>): Session
    decreases |inputs|
  {
    if inputs == [] then s else Run(UserInput(s, inputs[0]), inputs[1..])
  }

  // ------------------------------------------------------------- properties

  /** Mounting greets the visitor, shows the menu and waits at options. */
  lemma MountShowsMenu()
    ensures Mount() == Session(Options, Empty, [Bot(Welcome)] + Menu(), true, true)
  {
  }

  /** The donation questions, in the order they are asked, and the field each one fills. */
  const Questions: seq<Step> := [AskFirstName, AskLastName, AskEmail, AskAddress, AskCity, AskState, AskZip]
  const QuestionFields: seq<Field> := [FirstName, LastName, Email, Address, City, State, Zip]
  /** The prompt that follows each answer but the last. */
  const Prompts: seq<string> := [AskLastNamePrompt, AskEmailPrompt, AskAddressPrompt, AskCityPrompt, AskStatePrompt, AskZipPrompt]

  /**
   * The i-th question stores the input in the i-th field and nothing else
   * and moves on to question i + 1, or after the ZIP code to the
   * confirmation with its buttons shown.
   */
  lemma QuestionStoresOwnField(s: Session, input: string, i: nat)
    requires i < 7 && s.step == Questions[i]
    ensures var r := Process(s, input);
      && r.step == (if i < 6 then Questions[i + 1] else ConfirmInfo)
      && r.info == WithField(s.info, QuestionFields[i], input)
      && FieldValue(r.info, QuestionFields[i]) == input
      && (forall f :: f != QuestionFields[i] ==> FieldValue(r.info, f) == FieldValue(s.info, f))
      && r.showOptions == s.showOptions
      && r.showConfirmButtons == (i == 6 || s.showConfirmButtons)
  {
    QuestionOutcome(s, input, i);
  }

  /**
   * What the i-th question appends: the next prompt, or, after the ZIP code,
   * the summary of the record as now stored and the two confirmation buttons.
   */
  lemma QuestionReply(s: Session, input: string, i: nat)
    requires i < 7 && s.step == Questions[i]
    ensures var r := Process(s, input);
      && (i < 6 ==> r.messages == s.messages + [Bot(Prompts[i])])
      && (i == 6 ==> r.messages == s.messages + [Bot(SummaryIntro), Bot(Summary(r.info)), ConfirmButton(ConfirmYes), ConfirmButton(ConfirmNo)])
  {
    QuestionOutcome(s, input, i);
  }

  /** The whole state after the i-th question. */
  lemma QuestionOutcome(s: Session, input: string, i: nat)
    requires i < 7 && s.step == Questions[i]
    ensures var info := WithField(s.info, QuestionFields[i], input);
      Process(s, input) ==
        if i < 6 then Session(Questions[i + 1], info, s.messages + [Bot(Prompts[i])], s.showOptions, s.showConfirmButtons)
        else Session(ConfirmInfo, info,
          s.messages + [Bot(SummaryIntro), Bot(Summary(info)), ConfirmButton(ConfirmYes), ConfirmButton(ConfirmNo)],
          s.showOptions, true)
  {
    assert Process(s, input) == DonationStep(s, input);
    if i < 2 {
      EarlyQuestionOutcome(s, input, i);
    } else if i < 4 {
      MiddleQuestionOutcome(s, input, i);
    } else if i < 6 {
      LateQuestionOutcome(s, input, i);
    } else {
      assert DonationStep(s, input) == Summarize(s, input);
      SummaryOutcome(s, input);
    }
  }

  lemma EarlyQuestionOutcome(s: Session, input: string, i: nat)
    requires 0 <= i < 2 && s.step == Questions[i]
    ensures DonationStep(s, input) ==
      Session(Questions[i + 1], WithField(s.info, QuestionFields[i], input), s.messages + [Bot(Prompts[i])], s.showOptions, s.showConfirmButtons)
  {
    if i == 0 {
      assert DonationStep(s, input) == Answer(s, s.info.(firstName := input), AskLastName, AskLastNamePrompt);
      AnswerOutcome(s, s.info.(firstName := input), AskLastName, AskLastNamePrompt);
    } else {
      assert DonationStep(s, input) == Answer(s, s.info.(lastName := input), AskEmail, AskEmailPrompt);
      AnswerOutcome(s, s.info.(lastName := input), AskEmail, AskEmailPrompt);
    }
  }

  lemma MiddleQuestionOutcome(s: Session, input: string, i: nat)
    requires 2 <= i < 4 && s.step == Questions[i]
    ensures DonationStep(s, input) ==
      Session(Questions[i + 1], WithField(s.info, QuestionFields[i], input), s.messages + [Bot(Prompts[i])], s.showOptions, s.showConfirmButtons)
  {
    if i == 2 {
      assert DonationStep(s, input) == Answer(s, s.info.(email := input), AskAddress, AskAddressPrompt);
      AnswerOutcome(s, s.info.(email := input), AskAddress, AskAddressPrompt);
    } else {
      assert DonationStep(s, input) == Answer(s, s.info.(address := input), AskCity, AskCityPrompt);
      AnswerOutcome(s, s.info.(address := input), AskCity, AskCityPrompt);
    }
  }

  lemma LateQuestionOutcome(s: Session, input: string, i: nat)
    requires 4 <= i < 6 && s.step == Questions[i]
    ensures DonationStep(s, input) ==
      Session(Questions[i + 1], WithField(s.info, QuestionFields[i], input), s.messages + [Bot(Prompts[i])], s.showOptions, s.showConfirmButtons)
  {
    if i == 4 {
      assert DonationStep(s, input) == Answer(s, s.info.(city := input), AskState, AskStatePrompt);
      AnswerOutcome(s, s.info.(city := input), AskState, AskStatePrompt);
    } else {
      assert DonationStep(s, input) == Answer(s, s.info.(state := input), AskZip, AskZipPrompt);
      AnswerOutcome(s, s.info.(state := input), AskZip, AskZipPrompt);
    }
  }

  /** Storing an answer and moving to a question step asks that question and nothing else. */
  lemma AnswerOutcome(s: Session, info: DonationInfo, next: Step, prompt: string)
    requires next != Intro && next != Options
    ensures Answer(s, info, next, prompt) == Session(next, info, s.messages + [Bot(prompt)], s.showOptions, s.showConfirmButtons)
  {
  }

  lemma SummaryOutcome(s: Session, input: string)
    ensures var info := s.info.(zip := input);
      Summarize(s, input) == Session(ConfirmInfo, info,
        s.messages + [Bot(SummaryIntro), Bot(Summary(info)), ConfirmButton(ConfirmYes), ConfirmButton(ConfirmNo)],
        s.showOptions, true)
  {
  }

  /** The donate step answers the first-name question, exactly as askFirstName does. */
  lemma DonateAsksFirstName(s: Session, input: string)
    requires s.step == Donate
    ensures Process(s, input) == Process(s.(step := AskFirstName), input)
    ensures Process(s, input).info == s.info.(firstName := input) && Process(s, input).step == AskLastName
  {
  }

  /** The record after the answers are stored one by one, from the i-th question's field on. */
  function Fill(info: DonationInfo, i: nat, answers: seq<string>): DonationInfo
    requires i + |answers| <= 7
    decreases |answers|
  {
    if answers == [] then info else Fill(WithField(info, QuestionFields[i], answers[0]), i + 1, answers[1..])
  }

  /** Filling stores each answer in its own field and leaves the fields before the i-th as they were. */
  lemma {:induction false} FillFields(info: DonationInfo, i: nat, answers: seq<string>)
    requires i + |answers| == 7
    ensures forall j :: 0 <= j < i ==> FieldValue(Fill(info, i, answers), QuestionFields[j]) == FieldValue(info, QuestionFields[j])
    ensures forall j :: i <= j < 7 ==> FieldValue(Fill(info, i, answers), QuestionFields[j]) == answers[j - i]
    decreases |answers|
  {
    if answers != [] {
      var next := WithField(info, QuestionFields[i], answers[0]);
      var filled := Fill(info, i, answers);
      assert filled == Fill(next, i + 1, answers[1..]);
      FillFields(next, i + 1, answers[1..]);
      forall j | 0 <= j < i
        ensures FieldValue(filled, QuestionFields[j]) == FieldValue(info, QuestionFields[j])
      {
        assert QuestionFields[j] != QuestionFields[i];
      }
      forall j | i <= j < 7
        ensures FieldValue(filled, QuestionFields[j]) == answers[j - i]
      {
        if j > i {
          assert answers[1..][j - (i + 1)] == answers[j - i];
        }
      }
    }
  }

  /**
   * From question i, answering the remaining questions reaches the
   * confirmation with the summary buttons shown and the answers stored.
   */
  lemma {:induction false} AnswersFrom(s: Session, i: nat, answers: seq<string>)
    requires i < 7 && s.step == Questions[i] && |answers| == 7 - i
    decreases 7 - i
    ensures var r := Run(s, answers);
      r.step == ConfirmInfo && r.showConfirmButtons && r.info == Fill(s.info, i, answers)
  {
    var next := UserInput(s, answers[0]);
    assert Run(s, answers) == Run(next, answers[1..]);
    AnswerInput(s, answers[0], i);
    if i == 6 {
      assert answers[1..] == [];
    } else {
      AnswersFrom(next, i + 1, answers[1..]);
    }
  }

  /** Answering the remaining questions from question i only appends to the transcript. */
  lemma {:induction false} AnswersKeepPrefix(s: Session, i: nat, answers: seq<string>)
    requires i < 7 && s.step == Questions[i] && |answers| == 7 - i
    decreases 7 - i
    ensures s.messages <= Run(s, answers).messages
  {
    var next := UserInput(s, answers[0]);
    assert Run(s, answers) == Run(next, answers[1..]);
    AnswerKeepsPrefix(s, answers[0], i);
    if i < 6 {
      AnswerInput(s, answers[0], i);
      AnswersKeepPrefix(next, i + 1, answers[1..]);
      PrefixTransitive(s.messages, next.messages, Run(next, answers[1..]).messages);
    } else {
      assert answers[1..] == [];
    }
  }

  /** An answer sent as a message only appends to the transcript. */
  lemma AnswerKeepsPrefix(s: Session, input: string, i: nat)
    requires i < 7 && s.step == Questions[i]
    ensures s.messages <= UserInput(s, input).messages
  {
    var e := Emit(s, [User(input)]);
    QuestionKeepsPrefix(e, input);
    ExtendsPrefix(s.messages, [User(input)]);
    PrefixTransitive(s.messages, e.messages, UserInput(s, input).messages);
  }

  lemma PrefixTransitive(a: seq<Message>, b: seq<Message>, c: seq<Message>)
    requires a <= b && b <= c
    ensures a <= c
  {
    assert c[..|a|] == c[..|b|][..|a|];
  }

  /** The visitor's answer to the i-th question, sent as a message, is stored in the i-th field. */
  lemma AnswerInput(s: Session, input: string, i: nat)
    requires i < 7 && s.step == Questions[i]
    ensures var r := UserInput(s, input);
      && r.step == (if i < 6 then Questions[i + 1] else ConfirmInfo)
      && r.info == WithField(s.info, QuestionFields[i], input)
      && r.showConfirmButtons == (i == 6 || s.showConfirmButtons)
  {
    QuestionStoresOwnField(Emit(s, [User(input)]), input, i);
  }

  /** Two records that agree on every field are the same record. */
  lemma SameFields(a: DonationInfo, b: DonationInfo)
    requires forall j :: 0 <= j < 7 ==> FieldValue(a, QuestionFields[j]) == FieldValue(b, QuestionFields[j])
    ensures a == b
  {
    assert FieldValue(a, QuestionFields[0]) == FieldValue(b, QuestionFields[0]);
    assert FieldValue(a, QuestionFields[1]) == FieldValue(b, QuestionFields[1]);
    assert FieldValue(a, QuestionFields[2]) == FieldValue(b, QuestionFields[2]);
    assert FieldValue(a, QuestionFields[3]) == FieldValue(b, QuestionFields[3]);
    assert FieldValue(a, QuestionFields[4]) == FieldValue(b, QuestionFields[4]);
    assert FieldValue(a, QuestionFields[5]) == FieldValue(b, QuestionFields[5]);
    assert FieldValue(a, QuestionFields[6]) == FieldValue(b, QuestionFields[6]);
  }

  /** Seven answers filled from the first question make the record of exactly those answers. */
  lemma FillAll(info: DonationInfo, answers: seq<string>)
    requires |answers| == 7
    ensures Fill(info, 0, answers) == DonationInfo(answers[0], answers[1], answers[2], answers[3], answers[4], answers[5], answers[6])
  {
    FillFields(info, 0, answers);
    SameFields(Fill(info, 0, answers), DonationInfo(answers[0], answers[1], answers[2], answers[3], answers[4], answers[5], answers[6]));
  }

  /** Answering the seven questions fills the record with the answers, in order, and reaches the confirmation. */
  lemma SevenAnswers(s: Session, answers: seq<string>)
    requires s.step == AskFirstName || s.step == Donate
    requires |answers| == 7
    ensures Run(s, answers).step == ConfirmInfo
    ensures Run(s, answers).info == DonationInfo(answers[0], answers[1], answers[2], answers[3], answers[4], answers[5], answers[6])
    ensures Run(s, answers).showConfirmButtons
    ensures s.messages <= Run(s, answers).messages
  {
    var asked := s.(step := AskFirstName);
    assert Run(s, answers) == Run(asked, answers) by {
      DonateAsksFirstName(Emit(s, [User(answers[0])]).(step := Donate), answers[0]);
      assert UserInput(s, answers[0]) == UserInput(asked, answers[0]);
      assert Run(s, answers) == Run(UserInput(s, answers[0]), answers[1..]);
    }
    AnswersFrom(asked, 0, answers);
    AnswersKeepPrefix(asked, 0, answers);
    FillAll(s.info, answers);
  }

  /**
   * Confirming with "yes" in any letter case leaves the record as it is,
   * appends the link intro, the link to that record and the thanks, closes
   * the confirmation buttons and returns to the menu with its options shown.
   */
  lemma ConfirmAccepted(s: Session, input: string)
    requires s.step == ConfirmInfo && Lower(input) == "yes"
    ensures Process(s, input) == Session(
      Options, s.info,
      s.messages + [Bot(LinkIntro), LinkMessage(GenerateDonationLink(s.info)), Bot(Thanks)] + Menu(),
      true, false)
  {
    ConfirmDispatch(s, input);
    var link := GenerateDonationLink(s.info);
    AcceptLinks(s, input, link);
    LinkGiven(s.(showConfirmButtons := false), link);
  }

  lemma ConfirmDispatch(s: Session, input: string)
    requires s.step == ConfirmInfo
    ensures Process(s, input) == Confirmation(s, input)
  {
  }

  lemma AcceptLinks(s: Session, input: string, link: string)
    requires Lower(input) == "yes" && link == GenerateDonationLink(s.info)
    ensures Confirmation(s, input) == GiveLink(s.(showConfirmButtons := false), link)
  {
  }

  lemma LinkGiven(s: Session, link: string)
    ensures GiveLink(s, link) == Session(
      Options, s.info, s.messages + [Bot(LinkIntro), LinkMessage(link), Bot(Thanks)] + Menu(),
      true, s.showConfirmButtons)
  {
  }

  /** Any other answer to the confirmation empties all seven fields and starts the questions over. */
  lemma ConfirmRejected(s: Session, input: string)
    requires s.step == ConfirmInfo && Lower(input) != "yes"
    ensures Process(s, input) == Session(Donate, Empty, s.messages + [Bot(StartOver)], s.showOptions, false)
  {
  }

  /**
   * Choosing an option hides the options, removes every option message and
   * keeps the rest of the transcript in order; then the lower-cased choice
   * decides the step and the one reply.  The record is never touched.
   */
  lemma SelectOptionOutcome(s: Session, option: string)
    ensures var r := SelectOption(s, option);
      && r.info == s.info
      && r.showConfirmButtons == s.showConfirmButtons
      && WithoutOptions(s.messages) <= r.messages
      && (Lower(option) == "donate" ==>
            r.step == AskFirstName && !r.showOptions && r.messages == WithoutOptions(s.messages) + [Bot(DonateStart)])
      && (Lower(option) == "volunteer" ==>
            r.step == Chat && !r.showOptions && r.messages == WithoutOptions(s.messages) + [Bot(VolunteerReply)])
      && (Lower(option) == "contact" ==>
            r.step == Chat && !r.showOptions && r.messages == WithoutOptions(s.messages) + [Bot(ContactReply)])
      && (Lower(option) == "general inquiries" ==>
            r.step == Chat && !r.showOptions && r.messages == WithoutOptions(s.messages) + [Bot(GeneralReply)])
      && (Lower(option) !in {"donate", "volunteer", "contact", "general inquiries"} ==>
            r.step == Options && r.showOptions && r.messages == WithoutOptions(s.messages) + [Bot(Unrecognized)] + Menu())
  {
    var kept := WithoutOptions(s.messages);
    var choice := Lower(option);
    if choice == "donate" || choice == "general inquiries" {
      DirectChoice(s, option);
    } else if choice == "volunteer" || choice == "contact" {
      ForwardedChoice(s, option);
    } else {
      assert SelectOption(s, option) == Session(Options, s.info, kept + [Bot(Unrecognized)] + Menu(), true, s.showConfirmButtons);
    }
  }

  /** The donate and general-inquiries choices answer at once. */
  lemma DirectChoice(s: Session, option: string)
    requires Lower(option) == "donate" || Lower(option) == "general inquiries"
    ensures SelectOption(s, option) ==
      if Lower(option) == "donate" then Session(AskFirstName, s.info, WithoutOptions(s.messages) + [Bot(DonateStart)], false, s.showConfirmButtons)
      else Session(Chat, s.info, WithoutOptions(s.messages) + [Bot(GeneralReply)], false, s.showConfirmButtons)
  {
  }

  /** The volunteer and contact choices reach their reply through the step they set, and end in chat. */
  lemma ForwardedChoice(s: Session, option: string)
    requires Lower(option) == "volunteer" || Lower(option) == "contact"
    ensures SelectOption(s, option) ==
      Session(Chat, s.info,
        WithoutOptions(s.messages) + [Bot(if Lower(option) == "volunteer" then VolunteerReply else ContactReply)],
        false, s.showConfirmButtons)
  {
    var cleared := s.(showOptions := false, messages := WithoutOptions(s.messages));
    if Lower(option) == "volunteer" {
      assert SelectOption(s, option) == Reply(Enter(cleared, Volunteer));
    } else {
      assert SelectOption(s, option) == Reply(Enter(cleared, Contact));
    }
  }

  /** Forwarding a volunteer or contact choice is processing the choice in the step it sets. */
  lemma ForwardIsProcess(s: Session, option: string)
    requires Lower(option) == "volunteer" || Lower(option) == "contact"
    ensures var cleared := s.(showOptions := false, messages := WithoutOptions(s.messages));
      SelectOption(s, option) ==
        if Lower(option) == "volunteer" then Process(Enter(cleared, Volunteer), "volunteer")
        else Process(Enter(cleared, Contact), "contact")
  {
  }

  /** In the chat step every input gets the one canned reply and the step stays chat. */
  lemma ChatStaysChat(s: Session, input: string)
    requires s.step == Chat
    ensures Process(s, input) == s.(messages := s.messages + [Bot(ChatReply)])
  {
  }

  /**
   * An option choice matches case-insensitively: for a lower-case word w,
   * Lower(x) == w exactly when x has w's length and each character is w's
   * or its upper-case form.
   */
  lemma {:induction false} LowerMatches(x: string, w: string)
    requires forall i :: 0 <= i < |w| ==> !('A' <= w[i] <= 'Z')
    ensures Lower(x) == w <==>
      |x| == |w| && forall i :: 0 <= i < |x| ==> x[i] == w[i] || ('a' <= w[i] <= 'z' && x[i] as int == w[i] as int - 32)
  {
    if Lower(x) == w {
      forall i | 0 <= i < |x|
        ensures x[i] == w[i] || ('a' <= w[i] <= 'z' && x[i] as int == w[i] as int - 32)
      {
        assert LowerChar(x[i]) == w[i];
      }
    }
    if |x| == |w| && forall i :: 0 <= i < |x| ==> x[i] == w[i] || ('a' <= w[i] <= 'z' && x[i] as int == w[i] as int - 32) {
      forall i | 0 <= i < |x|
        ensures Lower(x)[i] == w[i]
      {
      }
    }
  }

  /**
   * Apart from option messages, the transcript only grows: the non-option
   * messages before an input are a prefix of those after it.
   */
  lemma TranscriptGrows(s: Session, input: string)
    ensures WithoutOptions(s.messages) <= WithoutOptions(UserInput(s, input).messages)
  {
    var before := s.messages + [User(input)];
    var after := UserInput(s, input).messages;
    ProcessKeepsPrefix(Emit(s, [User(input)]), input);
    WithoutOptionsPrefix(s.messages, before);
    if s.step == Options {
      WithoutOptionsPrefix(WithoutOptions(before), after);
      WithoutOptionsIdempotent(before);
    } else {
      WithoutOptionsPrefix(before, after);
    }
  }

  /** Processing keeps the transcript as a prefix, after dropping the options when a choice is made. */
  lemma ProcessKeepsPrefix(s: Session, input: string)
    ensures s.step != Options ==> s.messages <= Process(s, input).messages
    ensures s.step == Options ==> WithoutOptions(s.messages) <= Process(s, input).messages
  {
    match s.step {
      case Options => OptionKeepsPrefix(s, input);
      case Donate =>
        DonateAsksFirstName(s, input);
        QuestionKeepsPrefix(s.(step := AskFirstName), input);
      case AskFirstName | AskLastName | AskEmail | AskAddress | AskCity | AskState | AskZip =>
        QuestionKeepsPrefix(s, input);
      case ConfirmInfo => ConfirmKeepsPrefix(s, input);
      case Intro | Chat | Volunteer | Contact | ProvideLink => ReplyKeepsPrefix(s, input);
    }
  }

  lemma OptionKeepsPrefix(s: Session, input: string)
    requires s.step == Options
    ensures WithoutOptions(s.messages) <= Process(s, input).messages
  {
    SelectOptionOutcome(s, input);
  }

  lemma ConfirmKeepsPrefix(s: Session, input: string)
    requires s.step == ConfirmInfo
    ensures s.messages <= Process(s, input).messages
  {
    ConfirmDispatch(s, input);
    ConfirmationKeepsPrefix(s, input);
  }

  lemma ConfirmationKeepsPrefix(s: Session, input: string)
    ensures s.messages <= Confirmation(s, input).messages
  {
    var closed := s.(showConfirmButtons := false);
    if Lower(input) == "yes" {
      GiveLinkKeepsPrefix(closed, GenerateDonationLink(closed.info));
    } else {
      ExtendsPrefix(s.messages, [Bot(StartOver)]);
    }
  }

  lemma GiveLinkKeepsPrefix(s: Session, link: string)
    ensures s.messages <= GiveLink(s, link).messages
  {
    LinkGiven(s, link);
    var more := [Bot(LinkIntro), LinkMessage(link), Bot(Thanks)];
    assert s.messages + more + Menu() == s.messages + (more + Menu());
    ExtendsPrefix(s.messages, more + Menu());
  }

  lemma ExtendsPrefix(ms: seq<Message>, more: seq<Message>)
    ensures ms <= ms + more
  {
  }

  lemma ReplyKeepsPrefix(s: Session, input: string)
    requires s.step in {Intro, Chat, Volunteer, Contact, ProvideLink}
    ensures s.messages <= Process(s, input).messages
  {
    assert Process(s, input) == Reply(s);
  }

  lemma QuestionKeepsPrefix(s: Session, input: string)
    requires s.step in Questions
    ensures s.messages <= Process(s, input).messages
  {
    var i :| 0 <= i < 7 && Questions[i] == s.step;
    QuestionOutcome(s, input, i);
  }
}
