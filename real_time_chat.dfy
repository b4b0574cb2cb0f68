/** The simulated chat: sending a message, the bot's delayed reply, emoji reactions and the
    quick replies. The clock and `Math.random` are parameters: message ids and the index of the
    bot's answer are passed in. */
module RealTimeChat {
  import opened Common
  import opened Text

  datatype Sender = User | Bot

  /** A chat message; `reactions` is optional as in the source (its timestamp is not modelled). */
  datatype Message = Message(id: string, text: string, sender: Sender, reactions: Option<seq<string>>)

  const Welcome := Message(
    "1",
    "Welcome to the real-time chat! I'm an AI assistant ready to help you explore this dynamic application.",
    Bot, Some(["\U{1F44B}"]))

  const BotResponses: seq<string> := [
    "That's really interesting! This app showcases the power of modern React development.",
    "Great point! The interactive features here demonstrate real-time capabilities.",
    "I love how dynamic this application is! Every component responds to user interactions.",
    "The animations and transitions make the user experience so smooth and engaging.",
    "This is a perfect example of how Next.js can create powerful, interactive applications.",
    "The real-time features here would work great when deployed on Azure App Services!",
    "Have you tried the drag & drop functionality? It's quite responsive!",
    "The data visualization components update in real-time - very impressive!",
    "This chat itself is a great example of dynamic user interaction!",
    "The form validation provides instant feedback - excellent UX design!"
  ]

  const QuickReplies: seq<string> := [
    "Tell me more about the features",
    "How does the real-time functionality work?",
    "What technologies are used here?",
    "Show me the interactive components"
  ]

  /** `reactions.filter(r => r !== emoji)` */
  function WithoutEmoji(reactions: seq<string>, emoji: string): (r: seq<string>)
    ensures forall x :: x in r <==> x in reactions && x != emoji
    ensures multiset(r) == multiset(reactions)[emoji := 0]
    ensures |r| <= |reactions|
  {
    if reactions == [] then []
    else
      assert reactions == [reactions[0]] + reactions[1..];
      (if reactions[0] == emoji then [] else [reactions[0]]) + WithoutEmoji(reactions[1..], emoji)
  }

  lemma {:induction false} WithoutEmojiAppend(a: seq<string>, b: seq<string>, emoji: string)
    ensures WithoutEmoji(a + b, emoji) == WithoutEmoji(a, emoji) + WithoutEmoji(b, emoji)
  {
    if a == [] {
      assert a + b == b;
    } else {
      assert (a + b)[1..] == a[1..] + b;
      WithoutEmojiAppend(a[1..], b, emoji);
    }
  }

  lemma {:induction false} WithoutAbsentEmoji(reactions: seq<string>, emoji: string)
    requires emoji !in reactions
    ensures WithoutEmoji(reactions, emoji) == reactions
  {
    if reactions != [] {
      WithoutAbsentEmoji(reactions[1..], emoji);
    }
  }

  /** The toggle inside `addReaction`: a present emoji is removed everywhere, an absent one is
      appended at the end. */
  function ToggleReaction(reactions: seq<string>, emoji: string): (r: seq<string>)
    ensures emoji in reactions ==> emoji !in r && forall x :: x != emoji ==> (x in r <==> x in reactions)
    ensures emoji in reactions ==> r == WithoutEmoji(reactions, emoji)
    ensures emoji !in reactions ==> r == reactions + [emoji]
  {
    if emoji in reactions then WithoutEmoji(reactions, emoji) else reactions + [emoji]
  }

  /** Reacting twice with an emoji that was not there restores the reactions. */
  lemma ToggleAbsentTwice(reactions: seq<string>, emoji: string)
    requires emoji !in reactions
    ensures ToggleReaction(ToggleReaction(reactions, emoji), emoji) == reactions
  {
    WithoutEmojiAppend(reactions, [emoji], emoji);
    WithoutAbsentEmoji(reactions, emoji);
    assert WithoutEmoji([emoji], emoji) == [];
  }

  /** Reacting twice with an emoji that was there removes every copy, then adds one back at the end. */
  lemma TogglePresentTwice(reactions: seq<string>, emoji: string)
    requires emoji in reactions
    ensures ToggleReaction(ToggleReaction(reactions, emoji), emoji) == WithoutEmoji(reactions, emoji) + [emoji]
  {
  }

  /** The `messages.map` of `addReaction`: messages with the id get their reactions toggled
      (a missing list counts as empty); every other message, and every other field, is kept. */
  function Reacted(messages: seq<Message>, messageId: string, emoji: string): (r: seq<Message>)
    ensures |r| == |messages|
    ensures forall i :: 0 <= i < |messages| ==>
      && r[i].id == messages[i].id && r[i].text == messages[i].text && r[i].sender == messages[i].sender
      && (messages[i].id != messageId ==> r[i] == messages[i])
      && (messages[i].id == messageId ==>
            r[i].reactions == Some(ToggleReaction(messages[i].reactions.GetOr([]), emoji)))
  {
    seq(|messages|, i requires 0 <= i < |messages| =>
      if messages[i].id == messageId
      then messages[i].(reactions := Some(ToggleReaction(messages[i].reactions.GetOr([]), emoji)))
      else messages[i])
  }

  /** Reacting twice with an emoji none of the targeted messages had gives them back their
      reactions, with a missing list now present and empty. */
  lemma ReactedTwice(messages: seq<Message>, messageId: string, emoji: string)
    requires forall i :: 0 <= i < |messages| && messages[i].id == messageId ==>
      emoji !in messages[i].reactions.GetOr([])
    ensures forall i :: 0 <= i < |messages| ==>
      Reacted(Reacted(messages, messageId, emoji), messageId, emoji)[i].reactions
      == (if messages[i].id == messageId then Some(messages[i].reactions.GetOr([])) else messages[i].reactions)
  {
    forall i | 0 <= i < |messages| && messages[i].id == messageId {
      ToggleAbsentTwice(messages[i].reactions.GetOr([]), emoji);
    }
  }

  /** The component's state. */
  class Chat {
    var messages: seq<Message>
    var newMessage: string
    var isTyping: bool

    constructor ()
      ensures messages == [Welcome] && newMessage == "" && !isTyping
      ensures ShowsQuickReplies()
    {
      messages := [Welcome];
      newMessage := "";
      isTyping := false;
    }

    /** The quick-reply buttons are shown while the conversation has at most two messages. */
    predicate ShowsQuickReplies()
      reads this
    {
      |messages| <= 2
    }

    /** `setNewMessage` from the input's change handler. */
    method Type(text: string)
      modifies this
      ensures newMessage == text && messages == old(messages) && isTyping == old(isTyping)
    {
      newMessage := text;
    }

    /** A quick-reply button fills the input with its text; the buttons exist only while shown. */
    method ChooseQuickReply(k: nat) returns (event: string)
      requires k < |QuickReplies| && ShowsQuickReplies()
      modifies this
      ensures newMessage == QuickReplies[k] && messages == old(messages) && isTyping == old(isTyping)
      ensures event == "quick-reply"
    {
      newMessage := QuickReplies[k];
      event := "quick-reply";
    }

    /** `sendMessage`: blank input changes nothing; otherwise the untrimmed text is appended as a
        user message, the input is cleared and the bot starts typing. `id` stands for the clock. */
    method SendMessage(id: string) returns (event: Option<string>)
      modifies this
      ensures AllWhitespace(old(newMessage)) ==>
        messages == old(messages) && newMessage == old(newMessage) && isTyping == old(isTyping) && event == None
      ensures !AllWhitespace(old(newMessage)) ==>
        && messages == old(messages) + [Message(id, old(newMessage), User, None)]
        && newMessage == ""
        && isTyping
        && event == Some("send-message")
    {
      TrimEmptyIffBlank(newMessage);
      if Trim(newMessage) != "" {
        var userMessage := Message(id, newMessage, User, None);
        messages := messages + [userMessage];
        newMessage := "";
        isTyping := true;
        event := Some("send-message");
      } else {
        event := None;
      }
    }

    /** The timer callback scheduled by `sendMessage`: appends one of the canned answers, chosen by
        `choice` (`Math.floor(Math.random() * botResponses.length)`), and stops the typing indicator. */
    method BotReply(id: string, choice: nat) returns (event: string)
      requires choice < |BotResponses|
      modifies this
      ensures messages == old(messages) + [Message(id, BotResponses[choice], Bot, None)]
      ensures messages[|messages| - 1].text in BotResponses
      ensures |old(messages)| >= 2 ==> !ShowsQuickReplies()
      ensures !isTyping && newMessage == old(newMessage)
      ensures event == "bot-response"
    {
      var botMessage := Message(id, BotResponses[choice], Bot, None);
      messages := messages + [botMessage];
      isTyping := false;
      event := "bot-response";
    }

    /** `addReaction` */
    method AddReaction(messageId: string, emoji: string) returns (event: string)
      modifies this
      ensures messages == Reacted(old(messages), messageId, emoji)
      ensures newMessage == old(newMessage) && isTyping == old(isTyping)
      ensures event == "add-reaction"
    {
      messages := Reacted(messages, messageId, emoji);
      event := "add-reaction";
    }
  }
}
