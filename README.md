# Yara AI Platform page logic, in Dafny

This project models the logic of the Yara AI Platform web page (`script.js`) and proves properties of it. Everything the page does beyond DOM work is covered:

- **The chat assistant.** `generateAIResponse` lower-cases the message. It then tries five keyword categories in a fixed order, matching each keyword as a plain substring. The first category that applies gives a fixed reply. When none applies, an entry of an eight-entry pool is returned, picked at random.
- **The send guard.** `sendMessage` and `sendModalMessage` trim the input, drop it when it is blank, and otherwise show the message and the answer to it.
- **The document creator.** This covers the placeholder of each document type and the guard of `generateDocument`. It also covers the fallback of `generateDocumentContent` and the download file name: the first 30 UTF-16 code units of the prompt with every character outside `[a-zA-Z0-9]` replaced by `_`, then `_`, the time, `.` and the extension of the type.
- **The video intake check.** The MIME type must start with `video/` and the size must be at most 100 MB. The type is tested first.
- **The contact form.** All three fields must be non-empty.
- **The notification banner.** This covers its icon and the rule that a new banner replaces the ones on screen.

Most of the logic computes a value from its inputs. A few handlers change the page:

- `sendMessage` and `sendModalMessage` clear the input box and append to the chat.
- `showNotification` removes the banners on screen and appends a new one.
- The contact handler resets its form.

The model states each such change as a function from the old state to the new one. The states are a chat box, the banners on screen and the form's fields. So the whole model is made of datatypes, functions and lemmas. The JavaScript built-ins the logic relies on are restated in the module `Strings`:

- `toLowerCase`, restricted to ASCII.
- `includes` and `startsWith`.
- `trim`, with the ECMAScript whitespace set.
- The UTF-16 code units that `substring` and regular expressions work on.
- The decimal rendering of an integer inside a template literal.
- `table[key] || fallback` on an object literal.

Randomness and the clock become parameters:

- `pick` is the pool index `Math.floor(Math.random() * 8)`.
- `time` is `Date.now()`, taken to be non-negative.

The reply texts are copied exactly as the script file holds them, in the module `ChatReplies`. That includes their indentation and their emoji, which the file stores as UTF-8 read back as Windows-1252.

Modules:

- `Strings`: the JavaScript string primitives.
- `ChatReplies`: the fixed reply texts.
- `Chat`: reply selection and sending a message.
- `ChatExamples`: worked examples.
- `Documents`: the document creator.
- `Notifications`: the banner.
- `Video`: the intake check.
- `Contact`: the contact form.

## Model

| member | source | states |
|---|---|---|
| Strings.ToLower | script.js:615 | lower-casing keeps the length and maps each character to its lower-case form (ASCII letters only) |
| Strings.ToLowerIdempotent | script.js:615 | lower-casing twice is lower-casing once |
| Strings.Contains | script.js:618-701 | `includes`: the empty string and the string itself are contained, and nothing longer than the string is |
| Strings.StartsWith | script.js:456 | `startsWith`: `s` starts with `p` exactly when `s` is `p` followed by something, and then `s` contains `p` |
| Strings.LookupOr | script.js:109 | `table[key] \|\| fallback`: a non-empty entry is returned when there is one, and otherwise the fallback; the result is never empty when the fallback is not (also used at 416 and 794) |
| Strings.Trim | script.js:521 | `trim()` returns a string no longer than its input that neither starts nor ends with whitespace |
| Strings.TrimStart | script.js:521 | the result is a suffix of the input, does not start with whitespace, and everything removed is whitespace |
| Strings.TrimEnd | script.js:521 | the result is a prefix of the input, does not end with whitespace, and everything removed is whitespace |
| Strings.TrimSlice | script.js:521 | `trim()` returns the slice between the leading and trailing whitespace: all characters outside it are whitespace and it neither starts nor ends with whitespace |
| Strings.TrimEmptyIffBlank | script.js:521-523 | the trimmed message is empty exactly when the input is all whitespace |
| Strings.TrimIdempotent | script.js:521 | trimming a trimmed string changes nothing |
| Strings.ContainsIgnoresTrim | script.js:521-533 | for a keyword that neither starts nor ends with whitespace, the lower-cased trimmed message contains it exactly when the lower-cased message does |
| Strings.Utf16Units | script.js:360 | a character takes one code unit below U+10000 and a surrogate pair above |
| Strings.Utf16OfBmp | script.js:360 | a string of the Basic Multilingual Plane has one code unit per character, equal to its code point |
| Strings.NatToString | script.js:360 | the numeral of a time value is non-empty, made of decimal digits, and has no leading zero |
| Strings.ParseNatToString | script.js:360 | the numeral reads back as the number it was made from |
| Chat.GenerateAIResponse | script.js:614-716 | the answer is never empty, and it is always one of the five category replies or an entry of the default pool |
| Chat.CategoryReplyNonEmpty | script.js:619-700 | none of the five category replies is empty |
| Chat.Select | script.js:618-715 | the `if` chain chooses a category only when the lower-cased message mentions it, and pool entry `pick` only when it mentions none |
| Chat.SelectIsFirstMatch | script.js:618-715 | the `if` chain is the first-match rule over the ordered table documents, video/edit, greeting, help, pricing, with the pool as the final case |
| Chat.SelectFirstMatchWins | script.js:618-701 | a category is selected exactly when the message mentions one of its keywords and no keyword of an earlier category |
| Chat.SelectFallbackIff | script.js:704-715 | the pool is used exactly when no keyword of any category occurs, and then entry `pick` is the answer |
| Chat.DocumentKeywordWins | script.js:618-626 | a message containing "document", "word", "excel" or "powerpoint" gets the document reply, whatever else it contains |
| Chat.ResponseIsCategoryReply | script.js:618-701 | a message that mentions category `i` and no earlier category gets the reply of category `i` |
| Chat.ResponseFromPool | script.js:704-715 | a message with no keyword at all gets pool entry `pick` |
| Chat.ResponseInPoolIff | script.js:618-715 | the answer is an entry of the default pool exactly when the lower-cased message holds no keyword of any category |
| Chat.CategoryReplyNotInPool | script.js:619-712 | no category reply is an entry of the default pool (each category reply has at least 200 characters, each pool entry fewer) |
| Chat.ResponseIgnoresCase | script.js:615 | messages that lower-case alike get the same answer; a message and its lower-cased form do too |
| Chat.MentionsIgnoresTrim | script.js:521-533 | trimming the message never changes which categories it mentions |
| Chat.ResponseIgnoresTrim | script.js:521-533 | the trimmed message gets the same answer as the raw input |
| Chat.SendMessage | script.js:519-536 | a blank input changes nothing; otherwise the input box is cleared and the trimmed message is shown, followed by the answer to it (the same holds for `sendModalMessage`, 539-556) |
| Chat.SendAppendsExchange | script.js:526-535 | sending a non-blank input appends exactly two messages to the transcript: a non-empty trimmed user message and an answer to it |
| Chat.SendKeepsConversation | script.js:519-556 | a transcript built by sending is a sequence of exchanges: no blank or untrimmed message is ever shown, and no answer without its question |
| ChatExamples.HelpWithThisIsGreeting | script.js:641-650 | "help with this" selects the greeting, because "this" contains "hi" and greetings are tried before help |
| ChatExamples.WordDocumentIsDocuments | script.js:618-626 | "Can you make me a Word document?" selects the document reply |
| ChatExamples.VideoBeforeHelp | script.js:628-676 | "I need video editing help" selects the video reply, not the help reply |
| ChatExamples.NoKeywordGetsPoolEntry | script.js:704-715 | "asdkjfh" selects pool entry `pick` |
| Documents.PlaceholderText | script.js:103-110 | each of word, excel and powerpoint gets its own placeholder, and every other type gets "Describe what you want to create..." |
| Documents.PlaceholderDefaultIff | script.js:109 | the generic placeholder is shown exactly for types outside the three |
| Documents.PlaceholderInjective | script.js:104-108 | the three types show three different placeholders |
| Documents.GenerateDocument | script.js:112-117 | a blank prompt is refused with the alert, and exactly a blank one; otherwise generation goes on with the trimmed, non-empty prompt |
| Documents.DocumentContent | script.js:154-356 | the three types get their template, and any other type gets exactly the fallback paragraph |
| Documents.FileExtension | script.js:410-417 | "txt" exactly for types outside the three; docx, xlsx and pptx for word, excel and powerpoint; always non-empty letters and digits |
| Documents.FileExtensionInjective | script.js:411-415 | the three types get three different extensions |
| Documents.SanitizeUnit | script.js:360 | a code unit becomes an ASCII letter, an ASCII digit or `_`; it stays a letter or digit exactly when it matches `[a-zA-Z0-9]` |
| Documents.FilenameStem | script.js:360 | the stem has min(30, number of UTF-16 code units) characters, each an ASCII letter, an ASCII digit or `_` |
| Documents.StemOfBmp | script.js:360 | for a prompt of the Basic Multilingual Plane the stem has min(30, length) characters; a letter or digit is kept in place and any other character becomes `_` |
| Documents.StemOfAstral | script.js:360 | a character above U+FFFF, such as an emoji, becomes two underscores |
| Documents.StemIdempotent | script.js:360 | the stem of a stem is that stem |
| Documents.Filename | script.js:360 | the file name starts with the stem and `_`, and ends with `.` and the extension; its partner lemmas are `Documents.FilenameRoundTrip` and `Documents.FilenameCharacters` |
| Documents.FilenameRoundTrip | script.js:360 | the file name splits back, at its last `.` and the last `_` before it, into the stem, the time and the extension it was built from |
| Documents.FilenameCharacters | script.js:360 | every character of the file name is an ASCII letter, an ASCII digit, `_` or `.`, and the only `.` is the one before the extension |
| Documents.DownloadNotice | script.js:403 | the download ends with a success banner |
| Notifications.Icon | script.js:787-795 | every kind gets one of the table's icons, each kind of the table its own; "info-circle" exactly for "info" and for kinds outside the table |
| Notifications.IconInjective | script.js:788-793 | the four kinds of the table show four different icons |
| Notifications.ShowNotification | script.js:760-785 | after showing a banner, a new element holding it is the only banner on screen |
| Notifications.Dismiss | script.js:780-784 | closing a banner element removes that element and keeps every other, even one with the same text and kind |
| Notifications.AtMostOneBanner | script.js:760-785 | at most one banner is ever on screen, and the last one shown stays until its own element is closed |
| Notifications.StaleTimerKeepsNewBanner | script.js:762-784 | when a banner replaces another, the replaced banner's five-second timer leaves the new banner on screen, even when the two have the same text and kind; the new banner's own timer removes it |
| Video.CheckVideo | script.js:455-464 | a file is accepted exactly when its type starts with "video/" and its size is at most 104857600 bytes; a non-video is refused for its type, and a video over the limit for its size |
| Video.VerdictNotice | script.js:457-491 | an accepted file gives a success banner, and a refused one gives an error banner |
| Video.HandleVideoFile | script.js:455-491 | the banner is a success exactly when the file is accepted |
| Video.TypeCheckedFirst | script.js:456-459 | a non-video file gets the type error whatever its size |
| Video.SizeLimitInclusive | script.js:461 | a video of exactly 104857600 bytes is accepted, and one byte more is refused |
| Video.PrefixExamples | script.js:456 | "video/mp4" and "video/" pass the type test; "Video/mp4" and "application/mp4" do not |
| Contact.SubmitContact | script.js:730-735 | the thank-you banner is shown exactly when name, email and message are all non-empty, and the form is then reset; otherwise the error banner is shown and the form is kept |
| Contact.BlankFieldsAccepted | script.js:726-732 | any form whose three fields are non-empty but hold only whitespace is accepted and reset, because the values are not trimmed |
| Contact.ResubmitFails | script.js:730-732 | submitting again right after a success fails, because the form was reset |

## Left out

- DOM work is not modelled: `addMessageToChat`, the typing indicator, modal open and close, the mobile menu and scrolling. HTML injection through `innerHTML` is not modelled either.
- The delays are not modelled: the 1500 ms before a chat answer, the 3000 ms before a document is shown, and the 5000 ms before a banner closes itself. The model appends a question and its answer in one step. In the page, a second message sent within 1.5 seconds is shown before the first answer.
- `generateDocumentContent`'s HTML templates are not modelled. They fill in random numbers and the current date. The model only records which template is used.
- The text file built by `downloadDocument` is not modelled, and neither is its download through Blob, object URL and a link click. These are browser APIs.
- The video preview is not modelled: its `toFixed(2)` size in MB (floating point) and `URL.createObjectURL`.
- `editDocument`, `trimVideo`, `addEffects`, `addText`, `addMusic`, `enhanceQuality` and `autoSubtitles` are not modelled. Each only shows a fixed banner.
- `selectDocumentType` is not modelled. It assigns the global `currentDocumentType` and updates the DOM; the placeholder it shows is `Documents.PlaceholderText`.
- `askSuggestion` is not modelled separately. It puts a question in the input box and calls `sendMessage`, which is `Chat.SendMessage` on that input.
- `toLowerCase` is modelled for ASCII letters only. Full Unicode case mapping can turn a non-ASCII letter into ASCII: U+0130 becomes "i" followed by U+0307, so "H" + U+0130 contains "hi" in the browser but not in the model.
- Inherited object properties are not modelled. In the browser, `placeholders["constructor"]` and similar keys find a function. The model's lookups only see the keys written in the object literals. The types and kinds passed in come from the page's own buttons and calls.
- Strings holding unpaired surrogates are not modelled; Dafny strings are sequences of Unicode scalar values.
- `Date.now()` is a parameter. The model takes only non-negative times up to the ECMAScript maximum, 8.64e15, and for these the template literal prints plain decimal digits. A clock set before 1970 is not modelled: its negative time would print a `-`, and `Documents.ParseFilename` would not read such a name back.
- The changes to the page are modelled as functions from the old state to the new one. This covers `Chat.SendMessage`, `Notifications.ShowNotification`, `Notifications.Dismiss` and `Contact.SubmitContact`. The model does not capture DOM elements changed in place, or other code holding the same element.
- Contact.SubmitContact: the reset is modelled as emptying the fields. That assumes the fields have no default values; the page's HTML is not part of this model.
- Chat.GenerateAIResponse: does not prove that the five category replies are pairwise different. Proofs about the exact lengths or the characters of these long constants are too costly for the verifier. Only a lower bound on their lengths is proved, which separates them from the pool entries but not from each other. The lemmas state which reply is selected, and that the text of the selected reply is returned.
- Chat.ResponseIsCategoryReply: states only the "if" direction for the reply text. The "only if" direction is stated for the selected reply by `Chat.SelectFirstMatchWins`, because the texts are not proved pairwise different.
