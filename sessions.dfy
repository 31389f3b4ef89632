/** The session store `user_chats` (bot.py:61): chat id to the dialogue
    session opened for that chat. It is filled on the first free-text
    message of a chat (bot.py:216-218), emptied for one chat by the reset
    button (bot.py:120-121) and queried by the status button
    (bot.py:110-111). */
module Sessions {
  import opened Wrappers

  /** One exchange of the dialogue: the user's text and the model's answer. */
  datatype Turn = Turn(user: string, model: string)

  /** A dialogue session: the handle the AI client gave it and its history. */
  datatype Session = Session(handle: nat, history: seq<Turn>)

  /** The map after get-or-create for `id`, with `handle` the handle a new
      session would get. */
  function Created(m: map<int, Session>, id: int, handle: nat): map<int, Session> {
    if id in m then m else m[id := Session(handle, [])]
  }

  /** The map after the reset of `id`. */
  function Cleared(m: map<int, Session>, id: int): map<int, Session> {
    if id in m then m - {id} else m
  }

  /** The status report's two dynamic fields. */
  datatype StatusInfo = StatusInfo(memoryActive: bool, activeDialogues: nat)

  /** Get-or-create leaves the store with a session for `id`: the old one,
      unchanged, if there was one, and otherwise a fresh one with an empty
      history, which is then the only key added. No other key changes. */
  lemma CreatedSpec(m: map<int, Session>, id: int, handle: nat)
    ensures id in Created(m, id, handle)
    ensures id in m ==> Created(m, id, handle) == m
    ensures id !in m ==> Created(m, id, handle)[id] == Session(handle, [])
    ensures Created(m, id, handle).Keys == m.Keys + {id}
    ensures |Created(m, id, handle)| == if id in m then |m| else |m| + 1
    ensures forall k :: k in m ==> k in Created(m, id, handle) && Created(m, id, handle)[k] == m[k]
  {
    if id !in m {
      assert m[id := Session(handle, [])].Keys == m.Keys + {id};
    }
  }

  /** Reset removes `id` and only `id`; the store shrinks by one exactly when
      `id` had a session. */
  lemma ClearedSpec(m: map<int, Session>, id: int)
    ensures id !in Cleared(m, id)
    ensures Cleared(m, id).Keys == m.Keys - {id}
    ensures forall k :: k in m && k != id ==> k in Cleared(m, id) && Cleared(m, id)[k] == m[k]
    ensures |Cleared(m, id)| == if id in m then |m| - 1 else |m|
  {
    if id in m {
      assert (m - {id}).Keys == m.Keys - {id};
    }
  }

  /** Reset of a chat without a session is a no-op, and reset is idempotent. */
  lemma ClearedIdempotent(m: map<int, Session>, id: int)
    ensures id !in m ==> Cleared(m, id) == m
    ensures Cleared(Cleared(m, id), id) == Cleared(m, id)
  {
  }

  /** After a reset, the next free-text message starts a fresh session with
      an empty history, whatever the chat's history was before. */
  lemma ResetThenTalkStartsFresh(m: map<int, Session>, id: int, handle: nat)
    ensures Created(Cleared(m, id), id, handle)[id] == Session(handle, [])
    ensures Created(Cleared(m, id), id, handle).Keys == m.Keys + {id}
  {
    ClearedSpec(m, id);
    CreatedSpec(Cleared(m, id), id, handle);
  }

  /** A store-changing event: a dialogue message or a reset of a chat. */
  datatype Event = Talked(chat: int, handle: nat) | WasReset(chat: int)

  /** The store after `events`, oldest first. */
  function Replay(m: map<int, Session>, events: seq<Event>): map<int, Session>
    decreases |events|
  {
    if events == [] then m
    else
      var e := events[|events| - 1];
      var before := Replay(m, events[..|events| - 1]);
      match e
      case Talked(c, h) => Created(before, c, h)
      case WasReset(c) => Cleared(before, c)
  }

  /** The chat's last event among `events`, if any. */
  function LastEventOf(events: seq<Event>, id: int): Option<Event>
    decreases |events|
  {
    if events == [] then None
    else if events[|events| - 1].chat == id then Some(events[|events| - 1])
    else LastEventOf(events[..|events| - 1], id)
  }

  /** A store holds a session exactly for the chats that talked and were not
      reset since: starting from the empty store, any sequence of dialogue
      messages and resets leaves a key exactly for the chats whose last
      such event was a dialogue message. */
  lemma {:induction false} ReplayMembership(events: seq<Event>, id: int)
    ensures id in Replay(map[], events) <==>
      (LastEventOf(events, id).Some? && LastEventOf(events, id).value.Talked?)
    decreases |events|
  {
    if events != [] {
      var e := events[|events| - 1];
      var init := events[..|events| - 1];
      ReplayMembership(init, id);
      var before := Replay(map[], init);
      match e
      case Talked(c, h) => CreatedSpec(before, c, h);
      case WasReset(c) => ClearedSpec(before, c);
    }
  }

  /** The in-place store. `chats` is the mapping the handlers mutate. */
  class SessionStore {
    var chats: map<int, Session>

    /** The store starts empty when the process starts. */
    constructor ()
      ensures chats == map[]
    {
      chats := map[];
    }

    /** The dialogue's get-or-create: a chat without a session gets a new one
        with an empty history; the chat's session is then returned. */
    method GetOrCreate(id: int, handle: nat) returns (s: Session)
      modifies this
      ensures chats == Created(old(chats), id, handle)
      ensures id in chats && s == chats[id]
      ensures id in old(chats) ==> s == old(chats)[id]
      ensures id !in old(chats) ==> s == Session(handle, [])
    {
      if id !in chats {
        chats := chats[id := Session(handle, [])];
      }
      s := chats[id];
    }

    /** The reset button: the chat's session, if it has one, is deleted. */
    method Clear(id: int)
      modifies this
      ensures chats == Cleared(old(chats), id)
    {
      if id in chats {
        chats := chats - {id};
      }
    }

    /** The client library's effect of a completed dialogue exchange: the
        session's history grows by the exchange; nothing else changes. */
    method RecordTurn(id: int, user: string, model: string)
      requires id in chats
      modifies this
      ensures chats.Keys == old(chats).Keys
      ensures chats == old(chats)[id := old(chats)[id].(history := old(chats)[id].history + [Turn(user, model)])]
    {
      var s := chats[id];
      chats := chats[id := s.(history := s.history + [Turn(user, model)])];
    }

    /** The status report's dynamic fields: whether this chat has a session
        and how many sessions there are. Reads the store, changes nothing. */
    method Status(id: int) returns (info: StatusInfo)
      ensures info.memoryActive <==> id in chats
      ensures info.activeDialogues == |chats|
    {
      info := StatusInfo(id in chats, |chats|);
    }
  }
}
