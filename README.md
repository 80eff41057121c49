# Campaign chatbot dialogue, modelled in Dafny

This project models the scripted conversation of the campaign chatbot widget
(`CampaignChatbot` in `components/campaign-chatbot.tsx`). When it mounts, the
chatbot greets the visitor and offers four options: Donate, Volunteer,
Contact and General Inquiries. A donation then runs through seven questions
(first name, last name, email, street address, city, state, ZIP code). It
shows a summary with two confirmation buttons. A "Yes" answer produces a
personalised WinRed donation link whose query string carries the answers.
Any other answer empties the record and starts the questions over.

The project has nine modules:

- `UrlEncoding`: the encodings the link is built with, each with a strict decoder as its partner.
  - UTF-8.
  - `application/x-www-form-urlencoded` serialization, as `URLSearchParams.toString()` does it (section 5.2 of the WHATWG URL Standard).
  - `encodeURIComponent`.
  - The query serializer and a query parser.
- `DonorRecord`: the seven-field `DonationInfo` record. It also has field-wise read and write.
- `Transcript`: the `Message` type. It also has the filter that drops the option messages.
- `DonationLink`: `generateDonationLink`, plus a reader that recovers the record from a link.
- `LinkExample`: what the double encoding of the address does to a space.
- `Dialogue`: the component state as a value (`Session`) and one function per handler. Each gives the state after the handler from the state before it. The lemmas state what each step does.
- `DialogueInvariant`: the invariant `Settled`, which holds whenever the widget waits for the visitor. It also holds the consequences for what the rendered buttons can do.
- `Chatbot`: the component as a class. It has the five state variables as fields and one method per handler, and the methods update the fields in the order the setters run. Each method is proved to leave the state that its `Dialogue` counterpart describes.
- `AsWritten`: two handler paths as the code literally behaves (see Findings).

The model runs the step effect at every `setCurrentStep` (`Dialogue.Enter`). React runs it after the render, once, for the last step a handler set. Both give the same transcript: every step set to `intro` or `options` comes after the handler's own messages, and a step set before another in the same handler (`volunteer` before `chat`) has an effect that adds nothing. The effect does this:

- setting `intro` greets the visitor and moves on to `options`;
- setting `options` shows the menu.

Each `setCurrentStep({ type: "options" })` creates a new step object, so the effect runs again and the menu is shown again. This happens after an unrecognised option and after the donation link.

Confirmation buttons are never taken out of the transcript: the option filter (`components/campaign-chatbot.tsx:154`) drops option messages only. The ZIP answer turns `showConfirmButtons` on again. So after a rejected summary and seven new answers, the buttons under the rejected summary are clickable again, next to the new ones. Clicking the old "Yes" confirms the current record (`DialogueInvariant.RejectedButtonsReturn`).

Two consequences of the code are worth stating:

- `encodeURIComponent` runs on the address before `URLSearchParams` encodes it again, so a space reaches the link as `%2520` (`LinkExample.SpaceEncodedTwice`, `LinkExample.AddressSpaceInLink`).
- A rejected summary sets the `donate` step, which answers as the first-name question does (`Dialogue.DonateAsksFirstName`).

## Model

| member | source | states |
|---|---|---|
| UrlEncoding.CharToUtf8 | components/campaign-chatbot.tsx:270-282 | a character becomes one to four bytes: a lead byte announcing the length, then continuation bytes; it is one byte exactly for ASCII, and that byte is the code |
| UrlEncoding.Utf8RoundTrip | components/campaign-chatbot.tsx:270-282 | decoding the UTF-8 encoding of any string gives the string back |
| UrlEncoding.PercentEncode | components/campaign-chatbot.tsx:270-282 | a byte becomes '%' and two upper-case hex digits whose value is the byte |
| UrlEncoding.FormSetSparesOnly | components/campaign-chatbot.tsx:270-282 | the form serializer leaves exactly the ASCII alphanumerics and `*-._` unescaped |
| UrlEncoding.FormUrlEncode | components/campaign-chatbot.tsx:270-282 | the form-encoded text holds only alphanumerics, `*-._`, '+' and '%' |
| UrlEncoding.FormUrlRoundTrip | components/campaign-chatbot.tsx:270-282 | form decoding undoes form encoding for every string |
| UrlEncoding.FormUrlEncodeSpares | components/campaign-chatbot.tsx:270-282 | a string of alphanumerics and `*-._` is form-encoded as itself |
| UrlEncoding.FormUrlEncodeAppend | components/campaign-chatbot.tsx:270-282 | form encoding works character by character: the encoding of a concatenation is the concatenation of the encodings |
| UrlEncoding.EncodeUriComponent | components/campaign-chatbot.tsx:277 | the output of encodeURIComponent holds only URI-unreserved characters and '%' |
| UrlEncoding.UriRoundTrip | components/campaign-chatbot.tsx:277 | decodeURIComponent undoes encodeURIComponent for every string |
| UrlEncoding.UriPercentDecodeEncoded | components/campaign-chatbot.tsx:277 | percent-decoding the component encoding gives the string's UTF-8 bytes |
| UrlEncoding.EncodeUriComponentSpares | components/campaign-chatbot.tsx:277 | a string of unreserved characters is left as it is by encodeURIComponent |
| UrlEncoding.EncodeUriComponentAppend | components/campaign-chatbot.tsx:277 | encodeURIComponent works character by character over concatenation |
| UrlEncoding.PairText | components/campaign-chatbot.tsx:270-282 | one parameter as `URLSearchParams.toString()` writes it: the form-encoded name, "=", the form-encoded value; `ParsePairText` states that it parses back to the pair |
| UrlEncoding.SerializeQuery | components/campaign-chatbot.tsx:270-282 | the parameters written in order and joined by "&", as `params.toString()` does; `QueryRoundTrip` states that the query parser recovers every list of pairs from it |
| UrlEncoding.ParsePairText | components/campaign-chatbot.tsx:270-282 | a serialized name=value pair parses back to the same pair |
| UrlEncoding.ParseSerialized | components/campaign-chatbot.tsx:270-282 | splitting a serialized query at '&' and parsing the pieces gives the pairs back, in order |
| UrlEncoding.QueryRoundTrip | components/campaign-chatbot.tsx:270-282 | the query parser recovers every list of pairs from its serialization, names, values and order |
| DonorRecord.WithField | components/campaign-chatbot.tsx:187-217 | storing an answer sets that one field and leaves the other six as they were |
| Transcript.WithoutOptions | components/campaign-chatbot.tsx:154 | the filtered transcript has no option message and is no longer than before |
| Transcript.WithoutOptionsCounts | components/campaign-chatbot.tsx:154 | the filter keeps every non-option message as often as it occurred and drops all option messages |
| Transcript.WithoutOptionsAppend | components/campaign-chatbot.tsx:154 | filtering a concatenation filters each part, so the kept messages keep their order |
| Transcript.WithoutOptionsKeeps | components/campaign-chatbot.tsx:154 | a transcript without options passes the filter unchanged |
| Transcript.WithoutOptionsPrefix | components/campaign-chatbot.tsx:154 | the filter maps a prefix of a transcript to a prefix of the filtered transcript |
| Transcript.WithoutOptionsIdempotent | components/campaign-chatbot.tsx:154 | filtering twice is filtering once |
| DonationLink.RecordOfParams | components/campaign-chatbot.tsx:270-281 | the ten link parameters determine the record, the address read back through decodeURIComponent |
| DonationLink.Params | components/campaign-chatbot.tsx:270-281 | the ten parameters in the order of the literal: the three constants, then the answers, with the address passed through encodeURIComponent; `RecordOfParams` states that they determine the record |
| DonationLink.Query | components/campaign-chatbot.tsx:282 | the serialized parameters that follow the "?"; `LinkSplits` states that the link is the base URL, "?" and this query |
| DonationLink.GenerateDonationLink | components/campaign-chatbot.tsx:268-283 | the WinRed base URL, "?" and the serialized parameters; `LinkParameters` states what the query parses to, and `LinkRoundTrip` and `LinkDeterminesRecord` state that the record can be read back from it |
| DonationLink.LinkParameters | components/campaign-chatbot.tsx:268-283 | the link is the WinRed base URL, '?', then a query that parses to the three fixed parameters and the seven answers, the address encoded by encodeURIComponent |
| DonationLink.LinkRoundTrip | components/campaign-chatbot.tsx:268-283 | reading the link back gives exactly the record it was built from |
| DonationLink.LinkDeterminesRecord | components/campaign-chatbot.tsx:268-283 | two records with the same link are the same record |
| LinkExample.SpaceEncodedTwice | components/campaign-chatbot.tsx:277 | a space in the address reaches the link as `%2520` |
| LinkExample.AddressSpaceInLink | components/campaign-chatbot.tsx:277 | for an address with a space, the serialized address parameter is the twice-encoded text on each side with `%2520` between |
| Dialogue.Enter | components/campaign-chatbot.tsx:73-84 | setting a step keeps the record and both flags; intro greets and moves on to options with the menu, options shows the menu, every other step adds nothing |
| Dialogue.Initial | components/campaign-chatbot.tsx:45-58 | the useState initial values: intro, an empty record, no messages, both flags on; `MountShowsMenu` states what mounting makes of it |
| Dialogue.Menu | components/campaign-chatbot.tsx:78-82 | the menu prompt and the four option messages in the order shown; `ClickableOptionIsMenuEntry` states that the clickable options are always these entries |
| Dialogue.StepEffect | components/campaign-chatbot.tsx:73-84 | the effect on currentStep: intro greets and moves on to options, options shows the menu, any other step changes nothing; `Enter` states the outcome for every step |
| Dialogue.Mount | components/campaign-chatbot.tsx:45-84 | the initial values, then the effect for the intro step; `MountShowsMenu` gives the whole state and `MountSettled` states that it satisfies the invariant |
| Dialogue.Lower | components/campaign-chatbot.tsx:156 | ASCII lower-casing as `toLowerCase` applies it to the choices and the confirmation answer: same length, no upper-case ASCII letter left, every other character kept; `LowerMatches` states when an input matches a choice |
| Dialogue.Summary | components/campaign-chatbot.tsx:220-228 | the seven labelled lines of the record joined by newlines, ending with the ZIP code; `SummaryOutcome` and `ClickedButtonConfirms` state that the summary shows the stored record |
| Dialogue.UserInput | components/campaign-chatbot.tsx:103-106 | the visitor's message appended, then the input processed in the current step; `UserInputSettles` states that it keeps the invariant and `TranscriptGrows` that it only extends the transcript outside the options |
| Dialogue.Run | components/campaign-chatbot.tsx:103-106 | inputs handled one after another; `SevenAnswers` and `RunSettles` state what any run does |
| Dialogue.Process | components/campaign-chatbot.tsx:108-150 | the dispatch on the current step to the donation handler, the option handler or a fixed reply; `ProcessKeepsPrefix` and `ProcessSettles` state its properties for every step |
| Dialogue.Reply | components/campaign-chatbot.tsx:124-149 | chat answers with the canned reply; volunteer and contact reply and move on to chat; every other step answers "not sure"; `ChatStaysChat` and `ForwardedChoice` state the outcomes |
| Dialogue.SelectOption | components/campaign-chatbot.tsx:152-181 | hides the options, drops the option messages and acts on the lower-cased choice; `SelectOptionOutcome` states the outcome of every choice |
| Dialogue.Answer | components/campaign-chatbot.tsx:187-214 | stores one answer, sets the next question and asks it; `AnswerOutcome` gives the whole state |
| Dialogue.DonationStep | components/campaign-chatbot.tsx:183-266 | the switch on the donation step: the seven questions, the summary and the confirmation; `QuestionOutcome`, `ConfirmAccepted` and `ConfirmRejected` give the whole state for each case |
| Dialogue.Summarize | components/campaign-chatbot.tsx:216-233 | stores the ZIP, moves to the confirmation, turns the buttons on and shows the summary with the two buttons; `SummaryOutcome` gives the whole state |
| Dialogue.Confirmation | components/campaign-chatbot.tsx:234-261 | closes the buttons, then gives the link on any-case "yes" and otherwise starts over; `ConfirmAccepted` and `ConfirmRejected` give the whole state |
| Dialogue.GiveLink | components/campaign-chatbot.tsx:237-247 | the provide-link step, the intro, the link and the thanks, then the options on and the menu again; `LinkGiven` gives the whole state |
| Dialogue.MountShowsMenu | components/campaign-chatbot.tsx:45-84 | after mounting the widget waits at options with the welcome and the menu, an empty record and both flags on |
| Dialogue.QuestionStoresOwnField | components/campaign-chatbot.tsx:185-219 | the i-th question stores the input in its own field and no other, moves to the next question or after the ZIP to the confirmation with the buttons on, and keeps showOptions |
| Dialogue.QuestionReply | components/campaign-chatbot.tsx:189-232 | the i-th question adds exactly the next prompt, or after the ZIP the summary of the record as stored and the two confirmation buttons |
| Dialogue.QuestionOutcome | components/campaign-chatbot.tsx:185-233 | the whole state after each of the seven questions |
| Dialogue.AnswerOutcome | components/campaign-chatbot.tsx:187-214 | storing an answer and moving to a question asks that question and changes nothing else |
| Dialogue.SummaryOutcome | components/campaign-chatbot.tsx:216-233 | the ZIP answer stores the ZIP, opens the confirmation buttons and shows the stored record with "Yes" and "Information is Incorrect" |
| Dialogue.DonateAsksFirstName | components/campaign-chatbot.tsx:185-190 | the donate step answers exactly as the first-name question does |
| Dialogue.FillFields | components/campaign-chatbot.tsx:185-219 | answering from question i on stores the k-th remaining answer in field i + k and leaves the earlier fields alone |
| Dialogue.FillAll | components/campaign-chatbot.tsx:185-219 | seven answers from the first question make the record of exactly those answers |
| Dialogue.AnswersFrom | components/campaign-chatbot.tsx:185-219 | answering the remaining questions from question i reaches the confirmation with the buttons on and the answers stored |
| Dialogue.AnswersKeepPrefix | components/campaign-chatbot.tsx:185-233 | answering the remaining questions only appends to the transcript |
| Dialogue.AnswerKeepsPrefix | components/campaign-chatbot.tsx:103-233 | an answer to a donation question, sent as a message, only appends to the transcript |
| Dialogue.AnswerInput | components/campaign-chatbot.tsx:103-119 | an answer sent as a visitor message is stored in the asked question's field |
| Dialogue.SevenAnswers | components/campaign-chatbot.tsx:183-233 | from donate or the first-name question, seven inputs fill the record with those answers in order and reach the confirmation with its buttons on, only appending to the transcript |
| Dialogue.ConfirmAccepted | components/campaign-chatbot.tsx:234-247 | "yes" in any letter case keeps the record, adds the link intro, the link to that record and the thanks, closes the buttons and returns to the menu with the options shown |
| Dialogue.LinkGiven | components/campaign-chatbot.tsx:237-247 | the link step adds intro, link, thanks and the menu, and waits at options with the options shown |
| Dialogue.ConfirmRejected | components/campaign-chatbot.tsx:248-260 | any other answer closes the buttons, empties all seven fields, adds the start-over prompt and goes to the donate step |
| Dialogue.SelectOptionOutcome | components/campaign-chatbot.tsx:152-181 | an option choice never touches the record, drops every option message and keeps the rest in order; each of the four choices (any letter case) gives its step and its one reply; anything else re-shows the menu with the options on |
| Dialogue.DirectChoice | components/campaign-chatbot.tsx:157-175 | the donate and general-inquiries choices give their state at once |
| Dialogue.ForwardedChoice | components/campaign-chatbot.tsx:161-168 | the volunteer and contact choices end in chat with their own reply and the options hidden |
| Dialogue.ForwardIsProcess | components/campaign-chatbot.tsx:161-168 | a volunteer or contact choice is processing the choice in the step it has just set |
| Dialogue.ChatStaysChat | components/campaign-chatbot.tsx:124-132 | in chat every input gets the one canned reply and nothing else changes |
| Dialogue.LowerMatches | components/campaign-chatbot.tsx:156 | an input matches a lower-case choice exactly when it has the choice's length and each character is the choice's or its upper-case form |
| Dialogue.ProcessKeepsPrefix | components/campaign-chatbot.tsx:108-150 | processing only appends to the transcript, after dropping the option messages when a choice is made |
| Dialogue.TranscriptGrows | components/campaign-chatbot.tsx:103-106 | apart from option messages, every input only extends the transcript |
| DialogueInvariant.MountSettled | components/campaign-chatbot.tsx:45-84 | the mounted widget satisfies the invariant |
| DialogueInvariant.FilterKeepsMembers | components/campaign-chatbot.tsx:154 | the filter keeps only messages of the transcript and leaves no option |
| DialogueInvariant.SelectOptionSettles | components/campaign-chatbot.tsx:152-181 | every option choice leaves a settled state |
| DialogueInvariant.QuestionSettles | components/campaign-chatbot.tsx:185-233 | every answer to a donation question leaves a settled state |
| DialogueInvariant.ConfirmationSettles | components/campaign-chatbot.tsx:234-261 | both answers to the summary leave a settled state |
| DialogueInvariant.ProcessSettles | components/campaign-chatbot.tsx:108-150 | processing an input in a waiting step leaves a settled state |
| DialogueInvariant.UserInputSettles | components/campaign-chatbot.tsx:103-106 | from a settled state, any input leads to a settled state: the step waits for the visitor; the menu is shown, at the end, exactly in the options step; there are option messages nowhere else; the summary of the stored record and its two buttons end the transcript in the confirmation step, and outside it the last message is never a button; confirmation buttons read only "Yes" or "Information is Incorrect" |
| DialogueInvariant.ButtonLastOnlyAtConfirmation | components/campaign-chatbot.tsx:216-233 | in a settled state the transcript ends in a button only at the confirmation step |
| DialogueInvariant.RunSettles | components/campaign-chatbot.tsx:103-106 | the invariant holds after any sequence of inputs |
| DialogueInvariant.ClickableOption | components/campaign-chatbot.tsx:314 | a message is rendered as a clickable option when it is an option message and `showOptions` holds; `ClickableOptionIsMenuEntry` and `ClickedOptionLeavesMenu` state what such a click can do |
| DialogueInvariant.ClickableButton | components/campaign-chatbot.tsx:314-330 | a message is rendered as a clickable confirmation button when it is not a shown option and not a link, is a button message, and `showConfirmButtons` holds; `ClickedButtonConfirms` and `RejectedButtonsReturn` state what such a click can do |
| DialogueInvariant.ClickableOptionIsMenuEntry | components/campaign-chatbot.tsx:314-320 | in a settled state an option rendered as a button appears only at options and is one of the four menu entries |
| DialogueInvariant.ClickedOptionLeavesMenu | components/campaign-chatbot.tsx:314-316 | clicking a rendered option always leaves the options step and keeps the invariant |
| DialogueInvariant.ClickedButtonConfirms | components/campaign-chatbot.tsx:330-336 | a rendered confirmation button appears only at the confirmation step, whose transcript ends with the summary of the stored record; the buttons of a rejected summary become clickable again and act on the current record; "Yes" produces the link to that record and "Information is Incorrect" empties the record and goes to donate |
| DialogueInvariant.RejectedButtonsReturn | components/campaign-chatbot.tsx:154-259 | after "Information is Incorrect" and seven new answers, the "Yes" button under the rejected summary is clickable again, above the new summary, and the record then is the new answers |
| DialogueInvariant.YesGivesLink | components/campaign-chatbot.tsx:236-240 | at the confirmation, "Yes" puts the visitor's answer, the link intro and the link to the stored record right after the transcript |
| DialogueInvariant.IncorrectRestarts | components/campaign-chatbot.tsx:248-259 | at the confirmation, "Information is Incorrect" empties the record and goes to donate |
| Chatbot.CampaignChatbot.constructor | components/campaign-chatbot.tsx:45-58 | a new component holds the mounted state: welcome, menu, options step |
| Chatbot.CampaignChatbot.AddMessage | components/campaign-chatbot.tsx:88-101 | one message with the given text and flags goes at the end of the transcript and nothing else changes |
| Chatbot.CampaignChatbot.Say | components/campaign-chatbot.tsx:88-101 | an assistant message with no flags goes at the end of the transcript, as `addMessageWithDelay(text, false)` adds it |
| Chatbot.CampaignChatbot.ShowMenu | components/campaign-chatbot.tsx:77-83 | the prompt and the four option messages go at the end of the transcript |
| Chatbot.CampaignChatbot.RunStepEffect | components/campaign-chatbot.tsx:73-84 | the step effect leaves the state the step-effect function gives |
| Chatbot.CampaignChatbot.SetStep | components/campaign-chatbot.tsx:73-84 | setting the step and running its effect leaves the state `Dialogue.Enter` gives |
| Chatbot.CampaignChatbot.HandleUserInput | components/campaign-chatbot.tsx:103-106 | the fields end as `Dialogue.UserInput` says, so the invariant lemmas hold of the component |
| Chatbot.CampaignChatbot.ProcessUserInput | components/campaign-chatbot.tsx:108-150 | the fields end as `Dialogue.Process` says |
| Chatbot.CampaignChatbot.HandleOptionSelection | components/campaign-chatbot.tsx:152-181 | the fields end as `Dialogue.SelectOption` says |
| Chatbot.CampaignChatbot.Ask | components/campaign-chatbot.tsx:187-214 | one answer is stored and the next question asked, as `Dialogue.Answer` says |
| Chatbot.CampaignChatbot.HandleDonationStep | components/campaign-chatbot.tsx:183-266 | the fields end as `Dialogue.DonationStep` says |
| Chatbot.CampaignChatbot.ShowSummary | components/campaign-chatbot.tsx:216-233 | the ZIP answer leaves the state `Dialogue.Summarize` gives: the record as stored, shown in the summary |
| Chatbot.CampaignChatbot.Confirm | components/campaign-chatbot.tsx:234-261 | the answer to the summary leaves the state `Dialogue.Confirmation` gives |
| Chatbot.CampaignChatbot.SendLink | components/campaign-chatbot.tsx:237-247 | the link step leaves the state `Dialogue.GiveLink` gives |
| Chatbot.CampaignChatbot.StartOver | components/campaign-chatbot.tsx:248-259 | the donate step with every field emptied and the start-over prompt added |
| AsWritten.ForwardNeverReturns | components/campaign-chatbot.tsx:161-168 | as written, choosing volunteer or contact overflows the stack whatever its depth |
| AsWritten.SelectOptionAsWritten | components/campaign-chatbot.tsx:152-181 | handleOptionSelection as written, given the step its render saw (options) and a stack depth: volunteer and contact call `ProcessAsWritten` with that step; `ForwardNeverReturns` and `OtherChoicesAgree` state its outcome for every choice |
| AsWritten.ProcessAsWritten | components/campaign-chatbot.tsx:108-150 | processUserInput dispatching on the step its closure saw: at options it calls `SelectOptionAsWritten` again, at the current step it acts as `Dialogue.Process` (`FreshStepReplies`) |
| AsWritten.FreshStepReplies | components/campaign-chatbot.tsx:108-168 | had processUserInput seen the volunteer or contact step just set, the forwarded choice would get the reply of the modelled handler |
| AsWritten.OtherChoicesAgree | components/campaign-chatbot.tsx:152-181 | as written, every other choice behaves as the modelled handler |
| AsWritten.StaleZipInSummary | components/campaign-chatbot.tsx:216-230 | as written, the summary shows the record with the previous ZIP code, which differs from the stored record whenever the answer differs from it |
| AsWritten.AskZipAsWritten | components/campaign-chatbot.tsx:216-233 | the ZIP answer with the summary built from the closure's record; `StaleZipInSummary` states how it differs from the stored record |
| AsWritten.SummaryShowsStoredRecord | components/campaign-chatbot.tsx:216-233 | the corrected handler's summary shows exactly the stored record, new ZIP included |

## Left out

- Timing is not modelled: the 1000 ms delay of each assistant message, the 1000 ms `setTimeout` before an input is processed, the extra 1000 ms before the chat reply, and the 5000 ms pause before the menu returns after the link. Each handler's messages are appended at once, in the order the handler emits them.
- Inputs are processed one at a time. An input sent while an earlier one is still waiting on its timers, and so interleaves with it, is not modelled.
- Outside the two findings, a handler reads the state as it is when the handler starts, with its own setters applied in order. Closures that see older renders are modelled only in `AsWritten`.
- React StrictMode's double run of effects in development is not modelled.
- The scroll effect (`components/campaign-chatbot.tsx:60-71`) is not modelled.
- The `isOpen` flag and the rest of the JSX are not modelled. Of the rendering, only which messages become clickable buttons is modelled (`DialogueInvariant.ClickableOption`, `DialogueInvariant.ClickableButton`).
- The form's trim and its empty-input guard (`components/campaign-chatbot.tsx:350-358`) are not modelled. Inputs are arbitrary strings, which covers every trimmed non-empty one.
- app/api/chat/route.ts is not part of this model. The chat step answers with its canned text only.
- Dialogue.Lower: lower-cases the ASCII letters A-Z only, and keeps every other character. `toLowerCase` also maps non-ASCII upper-case letters. The only one it turns into a single ASCII letter is U+212A KELVIN SIGN, which becomes 'k', and no choice and not "yes" contains a 'k'. U+0130 becomes two characters, so it can never equal a choice. So every comparison the handlers make (`components/campaign-chatbot.tsx:156`, `components/campaign-chatbot.tsx:236`) comes out the same as with the full mapping.
- UrlEncoding.EncodeUriComponent: cannot throw `URIError`. A Dafny `char` is a Unicode scalar value, so the lone surrogates that make `encodeURIComponent` throw cannot occur.
- DonationLink.ReadDonationLink is not in the source. It is the strict reader that serves as the link's inverse.

## Findings

| source | as written | input that shows it | evidently intended | confidence | as-written member | corrected member |
|---|---|---|---|---|---|---|
| components/campaign-chatbot.tsx:161-168 | after `setCurrentStep({ type: "volunteer" })`, `processUserInput("volunteer")` still reads `currentStep` as options from its closure, so it calls `handleOptionSelection("volunteer")` again, without end; contact does the same | clicking "Volunteer" or "Contact" in the menu | process the choice in the new step: say the volunteer or contact reply and move on to chat | not executed | AsWritten.ForwardNeverReturns | Dialogue.ForwardedChoice |
| components/campaign-chatbot.tsx:216-230 | the summary is built from `donationInfo` as the handler's closure saw it, before the ZIP write lands, so its ZIP line shows the previous ZIP code | a first donation answering "62704" at the ZIP question: the summary reads `ZIP: ` while the record holds 62704 | show the record as stored, the new ZIP code included | not executed | AsWritten.StaleZipInSummary | AsWritten.SummaryShowsStoredRecord |
