/*
 * `ChatView.post` of backend/chat/views.py: pick or create the
 * conversation, store the user's message, send the earlier messages as
 * history to the model, store its answer, and undo the writes of this
 * request when the model fails. The model is a function parameter that
 * returns `None` where the service raises.
 */
module Chat {
  import opened Common

  datatype Conversation = Conversation(id: nat, user: nat, title: string)

  datatype Message = Message(id: nat, conversation: nat, role: string, content: string)

  /** One history entry `{'role': ..., 'content': ...}`. */
  datatype Turn = Turn(role: string, content: string)

  /** The language model: the answer to a message given the history, or `None` when the call raises. */
  type Generator = (string, seq<Turn>) -> Option<string>

  const MaxHistory := 10
  const TitleLength := 50

  /** The turns of conversation `conv` in `msgs` (creation order), leaving out message `exclude`. */
  function HistoryOf(msgs: seq<Message>, conv: nat, exclude: nat): (turns: seq<Turn>)
    ensures |turns| <= |msgs|
  {
    if msgs == [] then []
    else
      var m := msgs[|msgs| - 1];
      HistoryOf(msgs[..|msgs| - 1], conv, exclude) +
        (if m.conversation == conv && m.id != exclude then [Turn(m.role, m.content)] else [])
  }

  /** The excluded message itself, stored last, adds nothing. */
  lemma {:induction false} HistoryIgnoresExcluded(msgs: seq<Message>, m: Message, conv: nat)
    ensures HistoryOf(msgs + [m], conv, m.id) == HistoryOf(msgs, conv, m.id)
  {
    assert (msgs + [m])[..|msgs|] == msgs;
  }

  /** A conversation no stored message belongs to has no history. */
  lemma {:induction false} NewConversationHasNoHistory(msgs: seq<Message>, conv: nat, exclude: nat)
    requires forall k | 0 <= k < |msgs| :: msgs[k].conversation != conv
    ensures HistoryOf(msgs, conv, exclude) == []
  {
    if msgs != [] {
      NewConversationHasNoHistory(msgs[..|msgs| - 1], conv, exclude);
    }
  }

  /** `title or user_message[:50]`. */
  function ConversationTitle(title: string, message: string): (t: string)
    ensures title != [] ==> t == title
    ensures title == [] ==> |t| == (if |message| < TitleLength then |message| else TitleLength) && t == message[..|t|]
  {
    if title != [] then title else Take(message, 50)
  }

  /** The position of conversation `id` of user `user`, if there is one. */
  function FindConversation(convs: seq<Conversation>, id: int, user: nat): (r: Option<nat>)
    ensures r.Some? ==> r.value < |convs| && convs[r.value].id == id && convs[r.value].user == user
    ensures r.None? <==> forall k | 0 <= k < |convs| :: !(convs[k].id == id && convs[k].user == user)
  {
    if convs == [] then None
    else
      var n := |convs| - 1;
      if convs[n].id == id && convs[n].user == user then Some(n)
      else FindConversation(convs[..n], id, user)
  }

  datatype ChatError =
    | ConversationNotFound   // 404: the id is not one of the user's conversations
    | GenerationFailed       // 500 "Failed to generate AI response"

  datatype ChatReply = ChatReply(conversation: nat, userMessage: Message, aiMessage: Message)

  /** Keys below the next key, and every message in a stored conversation. */
  ghost predicate StoreValid(convs: seq<Conversation>, msgs: seq<Message>, nextConv: nat, nextMsg: nat)
  {
    && (forall k | 0 <= k < |convs| :: convs[k].id < nextConv)
    && (forall k | 0 <= k < |msgs| :: msgs[k].id < nextMsg)
    && (forall k | 0 <= k < |msgs| :: Stored(convs, msgs[k].conversation))
  }

  /** Some stored conversation has key `id`. */
  ghost predicate Stored(convs: seq<Conversation>, id: nat)
  {
    exists j | 0 <= j < |convs| :: convs[j].id == id
  }

  /** Starting a conversation under the next key keeps the store valid, and no stored message is in it yet. */
  lemma AddConversationKeepsValid(convs: seq<Conversation>, msgs: seq<Message>, nextConv: nat, nextMsg: nat,
                                  c: Conversation)
    requires StoreValid(convs, msgs, nextConv, nextMsg) && c.id == nextConv
    ensures StoreValid(convs + [c], msgs, nextConv + 1, nextMsg)
    ensures forall k | 0 <= k < |msgs| :: msgs[k].conversation != nextConv
  {
    var convs' := convs + [c];
    forall k | 0 <= k < |msgs|
      ensures Stored(convs', msgs[k].conversation)
    {
      var j :| 0 <= j < |convs| && convs[j].id == msgs[k].conversation;
      assert convs'[j] == convs[j];
    }
  }

  /** Storing a message of a stored conversation under the next key keeps the store valid. */
  lemma AddMessageKeepsValid(convs: seq<Conversation>, msgs: seq<Message>, nextConv: nat, nextMsg: nat,
                             m: Message, j: nat)
    requires StoreValid(convs, msgs, nextConv, nextMsg) && m.id == nextMsg
    requires j < |convs| && convs[j].id == m.conversation
    ensures StoreValid(convs, msgs + [m], nextConv, nextMsg + 1)
  {
    var msgs' := msgs + [m];
    forall k | 0 <= k < |msgs'|
      ensures Stored(convs, msgs'[k].conversation)
    {
      if k < |msgs| {
        assert msgs'[k] == msgs[k];
      } else {
        assert convs[j].id == msgs'[k].conversation;
      }
    }
  }

  class ChatStore {
    var conversations: seq<Conversation>
    var messages: seq<Message>
    var nextConversationId: nat
    var nextMessageId: nat

    /** Keys below the next key, and every message in a stored conversation. */
    ghost predicate Valid()
      reads this
    {
      StoreValid(conversations, messages, nextConversationId, nextMessageId)
    }

    constructor ()
      ensures Valid() && conversations == [] && messages == []
    {
      conversations := [];
      messages := [];
      nextConversationId := 1;
      nextMessageId := 1;
    }

    /**
     * `message.conversation.messages.exclude(id=...).order_by('created_at')[:10]`:
     * the first ten messages of the conversation, oldest first.
     */
    method History(conv: nat, exclude: nat) returns (history: seq<Turn>)
      ensures history == Take(HistoryOf(messages, conv, exclude), MaxHistory)
    {
      history := [];
      var k := 0;
      while k < |messages|
        invariant 0 <= k <= |messages|
        invariant history == Take(HistoryOf(messages[..k], conv, exclude), MaxHistory)
      {
        assert messages[..k + 1][..k] == messages[..k];
        var m := messages[k];
        if m.conversation == conv && m.id != exclude && |history| < 10 {
          history := history + [Turn(m.role, m.content)];
        }
        k := k + 1;
      }
      assert messages[..k] == messages;
    }

    /** `Conversation.objects.create(user=..., title=...)` under the next key. */
    method StartConversation(user: nat, title: string) returns (conv: nat)
      requires Valid()
      modifies this
      ensures Valid()
      ensures conv == old(nextConversationId) && nextConversationId == conv + 1
      ensures conversations == old(conversations) + [Conversation(conv, user, title)]
      ensures messages == old(messages) && nextMessageId == old(nextMessageId)
      ensures forall k | 0 <= k < |messages| :: messages[k].conversation != conv
    {
      conv := nextConversationId;
      AddConversationKeepsValid(conversations, messages, nextConversationId, nextMessageId, Conversation(conv, user, title));
      conversations := conversations + [Conversation(conv, user, title)];
      nextConversationId := nextConversationId + 1;
    }

    /** `Message.objects.create(conversation=..., role=..., content=...)` under the next key. */
    method AddMessage(conv: nat, role: string, content: string, ghost at: nat) returns (m: Message)
      requires Valid() && at < |conversations| && conversations[at].id == conv
      modifies this
      ensures Valid()
      ensures m == Message(old(nextMessageId), conv, role, content) && nextMessageId == m.id + 1
      ensures messages == old(messages) + [m]
      ensures conversations == old(conversations) && nextConversationId == old(nextConversationId)
    {
      m := Message(nextMessageId, conv, role, content);
      AddMessageKeepsValid(conversations, messages, nextConversationId, nextMessageId, m, at);
      messages := messages + [m];
      nextMessageId := nextMessageId + 1;
    }

    /**
     * The conversation of a chat turn: a truthy `conversationId` must name
     * one of the user's conversations; a missing or zero id starts a new
     * one, titled `title or message[:50]`, that holds no message yet.
     * Yields the conversation's key and its position.
     */
    method OpenConversation(user: nat, conversationId: Option<int>, message: string, title: string)
      returns (r: Option<(nat, nat)>)
      requires Valid()
      modifies this
      ensures Valid()
      ensures messages == old(messages) && nextMessageId == old(nextMessageId)
      ensures var given := conversationId.Some? && conversationId.value != 0;
        r.None? <==> given && FindConversation(old(conversations), conversationId.value, user).None?
      ensures r.None? ==> conversations == old(conversations)
      ensures r.Some? ==> r.value.1 < |conversations| && conversations[r.value.1].id == r.value.0
      ensures r.Some? && conversationId.Some? && conversationId.value != 0 ==>
        r.value.0 == conversationId.value && conversations == old(conversations)
      ensures r.Some? && !(conversationId.Some? && conversationId.value != 0) ==>
        && r.value.0 == old(nextConversationId)
        && conversations == old(conversations) + [Conversation(r.value.0, user, ConversationTitle(title, message))]
        && HistoryOf(messages, r.value.0, nextMessageId) == []
    {
      if conversationId.Some? && conversationId.value != 0 {
        var found := FindConversation(conversations, conversationId.value, user);
        if found.None? {
          return None;
        }
        return Some((conversations[found.value].id, found.value));
      }
      var conv := StartConversation(user, ConversationTitle(title, message));
      NewConversationHasNoHistory(messages, conv, nextMessageId);
      return Some((conv, |conversations| - 1));
    }

    /**
     * `ChatView.post`. A truthy `conversationId` must name one of the user's
     * conversations, otherwise 404 and nothing is written; a missing or zero
     * id creates a conversation. On success the user's message and the
     * answer are appended; when the model fails both writes are undone.
     */
    method Post(user: nat, conversationId: Option<int>, message: string, title: string,
                generate: Generator) returns (r: Result<ChatReply, ChatError>)
      requires Valid()
      modifies this
      ensures Valid()
      ensures var given := conversationId.Some? && conversationId.value != 0;
        r == Err(ConversationNotFound) <==> given && FindConversation(old(conversations), conversationId.value, user).None?
      ensures r.Err? ==> conversations == old(conversations) && messages == old(messages)
      ensures r.Ok? ==>
        var given := conversationId.Some? && conversationId.value != 0;
        var conv := r.value.conversation;
        var history := Take(HistoryOf(old(messages), conv, old(nextMessageId)), MaxHistory);
        && (given ==> conv == conversationId.value && conversations == old(conversations))
        && (!given ==> conversations == old(conversations) + [Conversation(conv, user, ConversationTitle(title, message))])
        && (!given ==> history == [])
        && generate(message, history).Some?
        && r.value.userMessage == Message(old(nextMessageId), conv, "user", message)
        && r.value.aiMessage == Message(old(nextMessageId) + 1, conv, "assistant", generate(message, history).value)
        && messages == old(messages) + [r.value.userMessage, r.value.aiMessage]
      ensures r == Err(GenerationFailed) ==>
        var given := conversationId.Some? && conversationId.value != 0;
        var conv := if given then conversationId.value else old(nextConversationId);
        generate(message, Take(HistoryOf(old(messages), conv, old(nextMessageId)), MaxHistory)).None?
    {
      var given := conversationId.Some? && conversationId.value != 0;
      ghost var convs0, msgs0, nextMsg0 := conversations, messages, nextMessageId;
      var selected := OpenConversation(user, conversationId, message, title);
      if selected.None? {
        return Err(ConversationNotFound);
      }
      var conv, at := selected.value.0, selected.value.1;
      var userMsg := AddMessage(conv, "user", message, at);
      HistoryIgnoresExcluded(msgs0, userMsg, conv);
      var history := History(conv, userMsg.id);
      assert history == Take(HistoryOf(msgs0, conv, nextMsg0), MaxHistory);
      var answer := generate(message, history);
      if answer.None? {
        // `user_msg.delete()`, and the conversation too when this request created it
        messages := messages[..|messages| - 1];
        assert messages == msgs0;
        if !given {
          conversations := conversations[..|conversations| - 1];
          assert conversations == convs0;
        }
        return Err(GenerationFailed);
      }
      var aiMsg := AddMessage(conv, "assistant", answer.value, at);
      AppendTwo(msgs0, userMsg, aiMsg);
      return Ok(ChatReply(conv, userMsg, aiMsg));
    }
  }
}
