/**
 * The chat assistant of the page: `generateAIResponse`, which picks a canned
 * reply by keyword, and the guard of `sendMessage` / `sendModalMessage`,
 * which only lets a non-blank, trimmed message through to it.
 *
 * The reply is chosen by an ordered list of keyword categories: the message
 * is lower-cased, each category is tried in turn, a category applies when
 * the message contains any of its keywords as a substring, and the first
 * category that applies gives the reply.  When none applies, an entry of the
 * default pool is returned; the script draws its index with
 * `Math.floor(Math.random() * 8)`, and the model takes that index as the
 * parameter `pick`.
 */
module Chat {
  import opened Strings
  import opened ChatReplies

  // ---------------------------------------------------------------------
  // Keyword categories
  // ---------------------------------------------------------------------

  datatype Category = Documents | VideoEditing | Greeting | Help | Pricing

  /** The categories in the order `generateAIResponse` tests them. */
  const Priority: seq<Category> := [Documents, VideoEditing, Greeting, Help, Pricing]

  /** The keywords of each category, as the script spells them. */
  function Keywords(c: Category): seq<string> {
    match c
    case Documents => ["document", "word", "excel", "powerpoint"]
    case VideoEditing => ["video", "edit"]
    case Greeting => ["hello", "hi", "hey"]
    case Help => ["help", "what can you do"]
    case Pricing => ["price", "cost", "free"]
  }

  /** The category applies to the lower-cased message `lower`. */
  predicate Mentions(lower: string, c: Category) {
    exists k :: k in Keywords(c) && Contains(lower, k)
  }

  /** The category is mentioned when one of its keywords occurs at
      position `i`. */
  lemma MentionedAt(lower: string, c: Category, k: string, i: nat)
    requires k in Keywords(c) && i + |k| <= |lower| && lower[i..i + |k|] == k
    ensures Mentions(lower, c)
  {
    ContainsAt(lower, k, i);
  }

  /** The category is not mentioned when each of its keywords, the `j`-th
      one, has a character, its `at[j]`-th one, that does not occur in the
      message at all. */
  lemma NotMentionedWhenCharMissing(lower: string, c: Category, at: seq<nat>)
    requires |at| == |Keywords(c)|
    requires forall j :: 0 <= j < |at| ==>
      at[j] < |Keywords(c)[j]| && Keywords(c)[j][at[j]] !in lower
    ensures !Mentions(lower, c)
  {
    forall k | k in Keywords(c)
      ensures !Contains(lower, k)
    {
      var j :| 0 <= j < |Keywords(c)| && Keywords(c)[j] == k;
      NotContainsMissingChar(lower, k, at[j]);
    }
  }

  /** No category applies. */
  predicate MentionsNone(lower: string) {
    forall c: Category :: !Mentions(lower, c)
  }

  /** The fixed reply of each category. */
  function CategoryReply(c: Category): string {
    match c
    case Documents => DocumentsReply
    case VideoEditing => VideoEditingReply
    case Greeting => GreetingReply
    case Help => HelpReply
    case Pricing => PricingReply
  }

  // ---------------------------------------------------------------------
  // Reply selection
  // ---------------------------------------------------------------------

  /** Which reply `generateAIResponse` gives: a category's, or the entry
      `index` of the default pool. */
  datatype Reply = Canned(category: Category) | Fallback(index: nat)

  /** The chain of `if` statements of `generateAIResponse`, on the already
      lower-cased message: a category is chosen only when the message
      mentions it, and the pool entry `pick` only when it mentions none. */
  function Select(lower: string, pick: nat): (r: Reply)
    ensures r.Canned? ==> Mentions(lower, r.category)
    ensures r.Fallback? ==> r.index == pick && MentionsNone(lower)
  {
    if Mentions(lower, Documents) then Canned(Documents)
    else if Mentions(lower, VideoEditing) then Canned(VideoEditing)
    else if Mentions(lower, Greeting) then Canned(Greeting)
    else if Mentions(lower, Help) then Canned(Help)
    else if Mentions(lower, Pricing) then Canned(Pricing)
    else Fallback(pick)
  }

  /** The text of a reply. */
  function ReplyText(r: Reply): string
    requires r.Fallback? ==> r.index < |DefaultReplies|
  {
    match r
    case Canned(c) => CategoryReply(c)
    case Fallback(i) => DefaultReplies[i]
  }

  /** No category reply is empty. */
  lemma CategoryReplyNonEmpty(c: Category)
    ensures CategoryReply(c) != []
  {
    CategoryReplyLong(c);
  }

  /** Every category reply has at least 200 characters, more than any entry
      of the default pool. */
  lemma CategoryReplyLong(c: Category)
    ensures |CategoryReply(c)| >= 200
  {
    if c == Documents {
      DocumentsReplyLong();
    } else {
      LaterReplyLong(c);
    }
  }

  /** The chain below takes one category at a time, which keeps each proof
      about the long reply texts small. */
  lemma LaterReplyLong(c: Category)
    requires c != Documents
    ensures |CategoryReply(c)| >= 200
  {
    if c == VideoEditing {
      VideoEditingReplyLong();
    } else {
      LastRepliesLong(c);
    }
  }

  lemma LastRepliesLong(c: Category)
    requires c != Documents && c != VideoEditing
    ensures |CategoryReply(c)| >= 200
  {
    if c == Greeting {
      GreetingReplyLong();
    } else {
      FinalRepliesLong(c);
    }
  }

  lemma FinalRepliesLong(c: Category)
    requires c == Help || c == Pricing
    ensures |CategoryReply(c)| >= 200
  {
    if c == Help {
      HelpReplyLong();
    } else {
      PricingReplyLong();
    }
  }

  /** No category reply is an entry of the default pool: the pool entries
      are all shorter. */
  lemma CategoryReplyNotInPool(c: Category)
    ensures CategoryReply(c) !in DefaultReplies
  {
    CategoryReplyLong(c);
    PoolShort();
  }

  /** The text of every reply is non-empty. */
  lemma ReplyTextNonEmpty(r: Reply)
    requires r.Fallback? ==> r.index < |DefaultReplies|
    ensures ReplyText(r) != []
  {
    match r
    case Canned(c) => CategoryReplyNonEmpty(c);
    case Fallback(_) => PoolNonEmpty();
  }

  lemma DocumentsReplyLong() ensures |DocumentsReply| >= 200 {}
  lemma VideoEditingReplyLong() ensures |VideoEditingReply| >= 200 {}
  lemma GreetingReplyLong() ensures |GreetingReply| >= 200 {}
  lemma HelpReplyLong() ensures |HelpReply| >= 200 {}
  lemma PricingReplyLong() ensures |PricingReply| >= 200 {}
  lemma PoolNonEmpty() ensures forall i :: 0 <= i < |DefaultReplies| ==> |DefaultReplies[i]| >= 1 {}
  lemma PoolShort() ensures forall i :: 0 <= i < |DefaultReplies| ==> |DefaultReplies[i]| < 200 {}

  /** `generateAIResponse(message)`, with the random pool index as `pick`.
      It never fails and never answers with an empty string: the answer is
      one of the five category replies or an entry of the default pool. */
  function GenerateAIResponse(message: string, pick: nat): (r: string)
    requires pick < |DefaultReplies|
    ensures (exists c: Category :: r == CategoryReply(c)) || r in DefaultReplies
    ensures r != []
  {
    var reply := Select(ToLower(message), pick);
    ReplyTextNonEmpty(reply);
    assert reply.Canned? ==> ReplyText(reply) == CategoryReply(reply.category);
    ReplyText(reply)
  }

  /** The answer is the text of the reply selected on the lower-cased
      message. */
  lemma ResponseIsSelected(message: string, lower: string, pick: nat)
    requires pick < |DefaultReplies| && ToLower(message) == lower
    ensures GenerateAIResponse(message, pick) == ReplyText(Select(lower, pick))
  {
  }

  // ---------------------------------------------------------------------
  // The same selection as an ordered table
  // ---------------------------------------------------------------------

  /** The first category of `order` that applies, trying them one by one;
      the pool entry `pick` when none does. */
  function FirstMatch(lower: string, order: seq<Category>, pick: nat): Reply {
    if order == [] then Fallback(pick)
    else if Mentions(lower, order[0]) then Canned(order[0])
    else FirstMatch(lower, order[1..], pick)
  }

  /** The chain of `if` statements is the first-match rule over the ordered
      table of categories. */
  lemma {:induction false} SelectIsFirstMatch(lower: string, pick: nat)
    ensures Select(lower, pick) == FirstMatch(lower, Priority, pick)
  {
    assert Priority[1..] == [VideoEditing, Greeting, Help, Pricing];
    assert Priority[2..] == [Greeting, Help, Pricing];
    assert Priority[3..] == [Help, Pricing];
    assert Priority[4..] == [Pricing];
    assert Priority[5..] == [];
    assert FirstMatch(lower, Priority[4..], pick) ==
      (if Mentions(lower, Pricing) then Canned(Pricing) else Fallback(pick));
    assert FirstMatch(lower, Priority[3..], pick) ==
      (if Mentions(lower, Help) then Canned(Help) else FirstMatch(lower, Priority[4..], pick));
    assert FirstMatch(lower, Priority[2..], pick) ==
      (if Mentions(lower, Greeting) then Canned(Greeting) else FirstMatch(lower, Priority[3..], pick));
  }

  /** First match wins: the category at position `i` of the order is chosen
      exactly when it applies and none of the categories before it does. */
  lemma SelectFirstMatchWins(lower: string, pick: nat, i: nat)
    requires i < |Priority|
    ensures Select(lower, pick) == Canned(Priority[i]) <==>
      Mentions(lower, Priority[i]) && forall j :: 0 <= j < i ==> !Mentions(lower, Priority[j])
  {
    assert Priority[0] == Documents && Priority[1] == VideoEditing && Priority[2] == Greeting;
    assert Priority[3] == Help && Priority[4] == Pricing;
  }

  /** The pool is used exactly when no category applies. */
  lemma SelectFallbackIff(lower: string, pick: nat)
    ensures Select(lower, pick).Fallback? <==> MentionsNone(lower)
    ensures Select(lower, pick).Fallback? ==> Select(lower, pick).index == pick
  {
    if !Select(lower, pick).Fallback? {
      assert !MentionsNone(lower) by {
        var c := Select(lower, pick).category;
        assert Mentions(lower, c);
      }
    }
  }

  // ---------------------------------------------------------------------
  // The answer text
  // ---------------------------------------------------------------------

  /** A message whose lower-cased form contains a document keyword gets the
      document reply, whatever else it contains. */
  lemma DocumentKeywordWins(message: string, pick: nat, k: string)
    requires pick < |DefaultReplies|
    requires k in Keywords(Documents) && Contains(ToLower(message), k)
    ensures GenerateAIResponse(message, pick) == DocumentsReply
  {
    var lower := ToLower(message);
    assert Mentions(lower, Documents);
    assert Select(lower, pick) == Canned(Documents);
    ResponseIsSelected(message, lower, pick);
  }

  /** The category at position `i` of the order gets its reply when the
      lower-cased message mentions it and none of the categories before it;
      `SelectFirstMatchWins` shows that this is the only way to get it. */
  lemma ResponseIsCategoryReply(message: string, pick: nat, i: nat)
    requires pick < |DefaultReplies| && i < |Priority|
    requires Mentions(ToLower(message), Priority[i])
    requires forall j :: 0 <= j < i ==> !Mentions(ToLower(message), Priority[j])
    ensures GenerateAIResponse(message, pick) == CategoryReply(Priority[i])
  {
    SelectFirstMatchWins(ToLower(message), pick, i);
  }

  /** A message that mentions no keyword at all gets the pool entry `pick`;
      `SelectFallbackIff` shows that no other message gets a pool entry. */
  lemma ResponseFromPool(message: string, pick: nat)
    requires pick < |DefaultReplies| && MentionsNone(ToLower(message))
    ensures GenerateAIResponse(message, pick) == DefaultReplies[pick]
  {
    SelectFallbackIff(ToLower(message), pick);
  }

  /** The answer is an entry of the default pool exactly when the
      lower-cased message holds no keyword of any category: the pool is the
      only way to a pool entry. */
  lemma ResponseInPoolIff(message: string, pick: nat)
    requires pick < |DefaultReplies|
    ensures GenerateAIResponse(message, pick) in DefaultReplies <==> MentionsNone(ToLower(message))
  {
    var lower := ToLower(message);
    ResponseIsSelected(message, lower, pick);
    SelectFallbackIff(lower, pick);
    var reply := Select(lower, pick);
    if reply.Canned? {
      CategoryReplyNotInPool(reply.category);
    }
  }

  /** Matching ignores ASCII case: a message and its lower-cased form get the
      same answer, and so do any two messages that lower-case alike. */
  lemma ResponseIgnoresCase(message: string, other: string, pick: nat)
    requires pick < |DefaultReplies|
    ensures GenerateAIResponse(ToLower(message), pick) == GenerateAIResponse(message, pick)
    ensures ToLower(other) == ToLower(message) ==>
      GenerateAIResponse(other, pick) == GenerateAIResponse(message, pick)
  {
    ToLowerIdempotent(message);
  }

  // ---------------------------------------------------------------------
  // Trimming before selection
  // ---------------------------------------------------------------------

  /** Every keyword starts and ends with a character other than whitespace. */
  lemma KeywordsAreTrimmed(c: Category, k: string)
    requires k in Keywords(c)
    ensures k != [] && !IsJsWhitespace(k[0]) && !IsJsWhitespace(k[|k| - 1])
  {
  }

  /** Trimming the message never changes which categories it mentions. */
  lemma MentionsIgnoresTrim(message: string, c: Category)
    ensures Mentions(ToLower(Trim(message)), c) == Mentions(ToLower(message), c)
  {
    forall k | k in Keywords(c)
      ensures Contains(ToLower(Trim(message)), k) == Contains(ToLower(message), k)
    {
      KeywordsAreTrimmed(c, k);
      ContainsIgnoresTrim(message, k);
    }
  }

  /** Trimming the message before asking for a reply, as `sendMessage` does,
      never changes the reply. */
  lemma ResponseIgnoresTrim(message: string, pick: nat)
    requires pick < |DefaultReplies|
    ensures GenerateAIResponse(Trim(message), pick) == GenerateAIResponse(message, pick)
  {
    MentionsIgnoresTrim(message, Documents);
    MentionsIgnoresTrim(message, VideoEditing);
    MentionsIgnoresTrim(message, Greeting);
    MentionsIgnoresTrim(message, Help);
    MentionsIgnoresTrim(message, Pricing);
    assert Select(ToLower(Trim(message)), pick) == Select(ToLower(message), pick);
  }

  // ---------------------------------------------------------------------
  // Sending a message
  // ---------------------------------------------------------------------

  datatype Sender = User | Bot

  /** One message shown in the chat: its text and who sent it. */
  datatype Message = Message(text: string, sender: Sender)

  /** A chat widget (the page's own or the one in the modal): the text in its
      input box and the messages shown so far. */
  datatype ChatBox = ChatBox(input: string, transcript: seq<Message>)

  /** `sendMessage` / `sendModalMessage`: the input is trimmed; a blank input
      changes nothing; otherwise the input box is cleared and the trimmed
      message is shown, followed by the answer to it. */
  function SendMessage(box: ChatBox, pick: nat): (r: ChatBox)
    requires pick < |DefaultReplies|
    ensures r == box <==> IsBlank(box.input)
    ensures !IsBlank(box.input) ==>
      && r.input == []
      && r.transcript == box.transcript +
           [Message(Trim(box.input), User), Message(GenerateAIResponse(box.input, pick), Bot)]
  {
    var message := Trim(box.input);
    TrimEmptyIffBlank(box.input);
    ResponseIgnoresTrim(box.input, pick);
    if message == [] then box
    else
      ChatBox([], box.transcript + [Message(message, User), Message(GenerateAIResponse(message, pick), Bot)])
  }

  /** `reply` is one of the answers `generateAIResponse` can give to
      `message`. */
  ghost predicate IsAnswerTo(reply: string, message: string) {
    exists pick :: 0 <= pick < |DefaultReplies| && reply == GenerateAIResponse(message, pick)
  }

  /** A user message that is non-empty and trimmed, followed by an answer to
      it. */
  ghost predicate IsExchange(question: Message, answer: Message) {
    && question.sender == User && question.text != [] && Trim(question.text) == question.text
    && answer.sender == Bot && IsAnswerTo(answer.text, question.text)
  }

  /** A conversation as sending messages builds it: a sequence of
      exchanges. */
  ghost predicate IsConversation(t: seq<Message>) {
    t == [] || (|t| >= 2 && IsConversation(t[..|t| - 2]) && IsExchange(t[|t| - 2], t[|t| - 1]))
  }

  /** What sending a non-blank input appends is an exchange. */
  lemma SendAppendsExchange(box: ChatBox, pick: nat)
    requires pick < |DefaultReplies| && !IsBlank(box.input)
    ensures var t := SendMessage(box, pick).transcript;
      && |t| == |box.transcript| + 2
      && t[..|t| - 2] == box.transcript
      && IsExchange(t[|t| - 2], t[|t| - 1])
  {
    var message := Trim(box.input);
    TrimEmptyIffBlank(box.input);
    TrimIdempotent(box.input);
    ResponseIgnoresTrim(box.input, pick);
    assert IsAnswerTo(GenerateAIResponse(message, pick), message);
  }

  /** Sending keeps a conversation a conversation: no blank or untrimmed
      message is ever shown, and no answer without its question. */
  lemma SendKeepsConversation(box: ChatBox, pick: nat)
    requires pick < |DefaultReplies|
    requires IsConversation(box.transcript)
    ensures IsConversation(SendMessage(box, pick).transcript)
  {
    if !IsBlank(box.input) {
      SendAppendsExchange(box, pick);
    }
  }
}
