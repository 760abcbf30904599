/**
 * Worked examples of the chat assistant's reply selection: the cases its
 * keyword rules are easiest to misread on.
 */
module ChatExamples {
  import opened Strings
  import opened ChatReplies
  import opened Chat

  /** "hi" is found inside words: "help with this" is answered with the
      greeting, not with the help text, because "this" contains "hi" and
      greetings are tried before help. */
  lemma HelpWithThisIsGreeting(message: string, pick: nat)
    requires message == "help with this" && pick < |DefaultReplies|
    ensures Select(ToLower(message), pick) == Canned(Greeting)
  {
    ToLowerOfLower(message);
    NotMentionedWhenCharMissing(message, Documents, [1, 1, 1, 1]);
    NotMentionedWhenCharMissing(message, VideoEditing, [0, 1]);
    MentionedAt(message, Greeting, "hi", 11);
  }

  /** "Can you make me a Word document?" gets the document reply. */
  lemma WordDocumentIsDocuments(message: string, pick: nat)
    requires message == "Can you make me a Word document?" && pick < |DefaultReplies|
    ensures Select(ToLower(message), pick) == Canned(Documents)
  {
    assert ToLower(message)[18..22] == "word";
    MentionedAt(ToLower(message), Documents, "word", 18);
  }

  /** "I need video editing help" mentions video and help; video is tried
      first. */
  lemma VideoBeforeHelp(message: string, pick: nat)
    requires message == "I need video editing help" && pick < |DefaultReplies|
    ensures Select(ToLower(message), pick) == Canned(VideoEditing)
  {
    var lower := ToLower(message);
    assert lower == "i need video editing help";
    VideoEditingHelpMentions(lower);
  }

  /** "i need video editing help" mentions no document keyword, and
      "video". */
  lemma VideoEditingHelpMentions(lower: string)
    requires lower == "i need video editing help"
    ensures !Mentions(lower, Documents) && Mentions(lower, VideoEditing)
  {
    NotMentionedWhenCharMissing(lower, Documents, [2, 0, 1, 2]);
    assert lower[7..12] == "video";
    MentionedAt(lower, VideoEditing, "video", 7);
  }

  /** A message without any keyword, such as "asdkjfh", gets the pool entry
      `pick`. */
  lemma NoKeywordGetsPoolEntry(message: string, pick: nat)
    requires message == "asdkjfh" && pick < |DefaultReplies|
    ensures Select(ToLower(message), pick) == Fallback(pick)
  {
    ToLowerOfLower(message);
    NoKeywordSkipsFirstThree(message);
    NoKeywordSkipsLastTwo(message);
  }

  /** "asdkjfh" mentions no document, video or greeting keyword. */
  lemma NoKeywordSkipsFirstThree(message: string)
    requires message == "asdkjfh"
    ensures !Mentions(message, Documents) && !Mentions(message, VideoEditing)
    ensures !Mentions(message, Greeting)
  {
    NotMentionedWhenCharMissing(message, Documents, [1, 0, 1, 0]);
    NotMentionedWhenCharMissing(message, VideoEditing, [0, 0]);
    NotMentionedWhenCharMissing(message, Greeting, [1, 1, 1]);
  }

  /** Nor does it mention help or pricing. */
  lemma NoKeywordSkipsLastTwo(message: string)
    requires message == "asdkjfh"
    ensures !Mentions(message, Help) && !Mentions(message, Pricing)
  {
    NotMentionedWhenCharMissing(message, Help, [1, 0]);
    NotMentionedWhenCharMissing(message, Pricing, [0, 1, 1]);
  }
}
