/**
 * The chatbot component's state and handlers, updating its fields one
 * after another as the component's setters do.  Each handler is proved to
 * leave the state its counterpart in the Dialogue module describes, so the
 * lemmas proved there hold of the component.
 */
module Chatbot {
  import opened DonorRecord
  import opened Transcript
  import opened DonationLink
  import opened Dialogue

  class CampaignChatbot {
    var step: Step
    var info: DonationInfo
    var messages: seq<Message>
    var showOptions: bool
    var showConfirmButtons: bool

    /** The component's state as a value. */
    function Snapshot(): Session
      reads this
    {
      Session(step, info, messages, showOptions, showConfirmButtons)
    }

    /** Mounting: the initial state values, then the step effect for the intro step. */
    constructor ()
      ensures Snapshot() == Mount()
    {
      step := Intro;
      info := Empty;
      messages := [];
      showOptions := true;
      showConfirmButtons := true;
      new;
      RunStepEffect();
    }

    /** addMessageWithDelay: one message, with the given text and flags, at the end of the transcript. */
    method AddMessage(text: string, isUser: bool, isOption: bool, isLink: bool, isButton: bool)
      modifies this
      ensures messages == old(messages) + [Message(text, isUser, isOption, isLink, isButton)]
      ensures step == old(step) && info == old(info)
      ensures showOptions == old(showOptions) && showConfirmButtons == old(showConfirmButtons)
    {
      messages := messages + [Message(text, isUser, isOption, isLink, isButton)];
    }

    method Say(text: string)
      modifies this
      ensures Snapshot() == Emit(old(Snapshot()), [Bot(text)])
    {
      AddMessage(text, false, false, false, false);
    }

    /** The options half of the step effect: the prompt and the four options. */
    method ShowMenu()
      modifies this
      ensures Snapshot() == Emit(old(Snapshot()), Menu())
    {
      Say(MenuPrompt);
      AddMessage("Donate", false, true, false, false);
      AddMessage("Volunteer", false, true, false, false);
      AddMessage("Contact", false, true, false, false);
      AddMessage("General Inquiries", false, true, false, false);
    }

    /** The effect that runs whenever currentStep is set. */
    method RunStepEffect()
      modifies this
      decreases if step == Intro then 2 else 0
      ensures Snapshot() == StepEffect(old(Snapshot()))
    {
      if step == Intro {
        Say(Welcome);
        SetStep(Options);
      } else if step == Options {
        ShowMenu();
      }
    }

    /** setCurrentStep, and the effect it sets off. */
    method SetStep(t: Step)
      modifies this
      decreases if t == Intro then 3 else 1
      ensures Snapshot() == Enter(old(Snapshot()), t)
    {
      step := t;
      RunStepEffect();
    }

    /** handleUserInput: the visitor's message, then processUserInput. */
    method HandleUserInput(input: string)
      modifies this
      ensures Snapshot() == UserInput(old(Snapshot()), input)
    {
      AddMessage(input, true, false, false, false);
      ProcessUserInput(input);
    }

    method ProcessUserInput(input: string)
      modifies this
      decreases if step == Options then 2 else 0
      ensures Snapshot() == Process(old(Snapshot()), input)
    {
      match step {
        case Donate | AskFirstName | AskLastName | AskEmail | AskAddress | AskCity | AskState | AskZip | ConfirmInfo =>
          HandleDonationStep(input);
        case Options =>
          HandleOptionSelection(input);
        case Chat =>
          Say(ChatReply);
        case Volunteer =>
          Say(VolunteerReply);
          SetStep(Chat);
        case Contact =>
          Say(ContactReply);
          SetStep(Chat);
        case Intro | ProvideLink =>
          Say(NotSure);
      }
    }

    method HandleOptionSelection(option: string)
      modifies this
      decreases 1
      ensures Snapshot() == SelectOption(old(Snapshot()), option)
    {
      showOptions := false;
      messages := WithoutOptions(messages);
      var choice := Lower(option);
      if choice == "donate" {
        SetStep(AskFirstName);
        Say(DonateStart);
      } else if choice == "volunteer" {
        SetStep(Volunteer);
        ProcessUserInput("volunteer");
        ForwardIsProcess(old(Snapshot()), option);
      } else if choice == "contact" {
        SetStep(Contact);
        ProcessUserInput("contact");
        ForwardIsProcess(old(Snapshot()), option);
      } else if choice == "general inquiries" {
        SetStep(Chat);
        Say(GeneralReply);
      } else {
        Say(Unrecognized);
        SetStep(Options);
        showOptions := true;
      }
    }

    /** Store one answer, move on and ask the next question. */
    method Ask(answered: DonationInfo, next: Step, prompt: string)
      modifies this
      ensures Snapshot() == Answer(old(Snapshot()), answered, next, prompt)
    {
      info := answered;
      SetStep(next);
      Say(prompt);
    }

    method HandleDonationStep(input: string)
      modifies this
      ensures Snapshot() == DonationStep(old(Snapshot()), input)
    {
      match step {
        case Donate | AskFirstName => Ask(info.(firstName := input), AskLastName, AskLastNamePrompt);
        case AskLastName => Ask(info.(lastName := input), AskEmail, AskEmailPrompt);
        case AskEmail => Ask(info.(email := input), AskAddress, AskAddressPrompt);
        case AskAddress => Ask(info.(address := input), AskCity, AskCityPrompt);
        case AskCity => Ask(info.(city := input), AskState, AskStatePrompt);
        case AskState => Ask(info.(state := input), AskZip, AskZipPrompt);
        case AskZip => ShowSummary(input);
        case ConfirmInfo => Confirm(input);
        case Intro | Options | Chat | Volunteer | Contact | ProvideLink =>
          Say(NotSure);
          SetStep(Options);
      }
    }

    /** The ZIP answer: store it, move to the confirmation and show the summary with its two buttons. */
    method ShowSummary(input: string)
      modifies this
      ensures Snapshot() == Summarize(old(Snapshot()), input)
    {
      info := info.(zip := input);
      SetStep(ConfirmInfo);
      showConfirmButtons := true;
      Say(SummaryIntro);
      Say(Summary(info));
      AddMessage(ConfirmYes, false, false, false, true);
      AddMessage(ConfirmNo, false, false, false, true);
    }

    /** The answer to the summary: "yes" in any case gives the link and the menu, anything else starts over. */
    method Confirm(input: string)
      modifies this
      ensures Snapshot() == Confirmation(old(Snapshot()), input)
    {
      showConfirmButtons := false;
      if Lower(input) == "yes" {
        var link := GenerateDonationLink(info);
        SendLink(link);
      } else {
        StartOver();
      }
    }

    /** The accepted summary: the link between its intro and the thanks, then the menu. */
    method SendLink(link: string)
      modifies this
      ensures Snapshot() == GiveLink(old(Snapshot()), link)
    {
      SetStep(ProvideLink);
      Say(LinkIntro);
      AddMessage(link, false, false, true, false);
      Say(Thanks);
      showOptions := true;
      SetStep(Options);
    }

    /** The rejected summary: back to the donate step with every field emptied. */
    method StartOver()
      modifies this
      ensures Snapshot() == Session(Donate, Empty, old(messages) + [Bot(Dialogue.StartOver)], old(showOptions), old(showConfirmButtons))
    {
      SetStep(Donate);
      info := Empty;
      Say(Dialogue.StartOver);
    }
  }
}
