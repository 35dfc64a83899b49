/** The message layer of `PeerProvider`: the `messageHandlers` registry (a
    set of handlers per channel and message type, mutated in place by
    `registerHandler` and the unregister function it returns), the dispatch
    body of a channel's `onmessage`, and `sendControl`. JavaScript `Set`s
    are sequences without duplicates in insertion order, which is the order
    `forEach` visits them. A handler is named by an id; what it does is not
    modelled, only whether it throws. */
module PeerContext {
  import opened Wrappers
  import opened Bytes

  type HandlerId = nat

  /** The JSON values carried as payloads. */
  datatype Json = JNull | JBool(b: bool) | JNum(n: int) | JStr(s: string) | JObj(fields: seq<(string, Json)>)

  /** The member names the player reads from `ControlMessageTypes`; the last
      two are not defined by it. */
  datatype ControlName = MovieIsPlaying | MovieSeek | MovieIsLoaded | MovieModeIsActive | MovieReady | MovieBufferLow

  /** `ControlMessageTypes.<name>`: the string, or `undefined` (None). */
  function ControlMessageType(n: ControlName): (v: Option<string>)
    ensures v.None? <==> n == MovieReady || n == MovieBufferLow
  {
    match n
    case MovieIsPlaying => Some("MOVIE_ISPLAYING")
    case MovieSeek => Some("MOVIE_SEEK")
    case MovieIsLoaded => Some("MOVIE_LOADED")
    case MovieModeIsActive => Some("MOVIE_MODE_ISACTIVE")
    case MovieReady => None
    case MovieBufferLow => None
  }

  /** `Object.values(ControlMessageTypes)`. */
  const ControlValues: seq<string> := ["MOVIE_ISPLAYING", "MOVIE_SEEK", "MOVIE_LOADED", "MOVIE_MODE_ISACTIVE"]
  const ChatValues: seq<string> := ["MESSAGE", "USER_TYPING", "USER_SEEN"]
  const MovieValues: seq<string> := ["CHUNK", "METADATA", "BUFFER", "ERROR", "READY"]

  /** The property key a value becomes when used as an object key. */
  function PropertyKey(v: Option<string>): string
  {
    if v.Some? then v.value else "undefined"
  }

  function EmptySets(keys: seq<string>): (m: map<string, seq<HandlerId>>)
    ensures m.Keys == set k | k in keys
    ensures forall k :: k in m ==> m[k] == []
  {
    map k | k in keys :: []
  }

  /** The initial registry: an empty set per known type of each channel. */
  function InitialHandlers(): map<string, map<string, seq<HandlerId>>>
  {
    map["control" := EmptySets(ControlValues), "chat" := EmptySets(ChatValues), "movie" := EmptySets(MovieValues)]
  }

  /** The control registry has exactly the four control values as keys, so
      the two undefined names resolve to the key "undefined", which is absent. */
  lemma ControlKeysAreTheFourValues()
    ensures InitialHandlers()["control"].Keys == {"MOVIE_ISPLAYING", "MOVIE_SEEK", "MOVIE_LOADED", "MOVIE_MODE_ISACTIVE"}
    ensures PropertyKey(ControlMessageType(MovieReady)) !in InitialHandlers()["control"]
    ensures PropertyKey(ControlMessageType(MovieBufferLow)) !in InitialHandlers()["control"]
    ensures PropertyKey(ControlMessageType(MovieIsLoaded)) == "MOVIE_LOADED"
  {
    assert "undefined" !in ControlValues;
  }

  // ---------------------------------------------------------------------
  // Sets as duplicate-free sequences

  predicate NoDup(s: seq<HandlerId>)
  {
    forall i, j :: 0 <= i < j < |s| ==> s[i] != s[j]
  }

  /** `Set.prototype.add`. */
  function SetAdd(s: seq<HandlerId>, h: HandlerId): seq<HandlerId>
  {
    if h in s then s else s + [h]
  }

  /** `Set.prototype.delete`. */
  function SetDelete(s: seq<HandlerId>, h: HandlerId): seq<HandlerId>
  {
    if s == [] then []
    else (if s[0] == h then [] else [s[0]]) + SetDelete(s[1..], h)
  }

  /** Adding keeps the set duplicate-free, adds `h` and only `h`, at the end
      if it was new, and adding twice is the same as adding once. */
  lemma SetAddSpec(s: seq<HandlerId>, h: HandlerId)
    requires NoDup(s)
    ensures NoDup(SetAdd(s, h))
    ensures forall x :: x in SetAdd(s, h) <==> x in s || x == h
    ensures h !in s ==> SetAdd(s, h) == s + [h]
    ensures SetAdd(SetAdd(s, h), h) == SetAdd(s, h)
  {
  }

  /** Deleting removes exactly `h`, keeps the others in order, and keeps the
      set duplicate-free. */
  lemma {:induction false} SetDeleteSpec(s: seq<HandlerId>, h: HandlerId)
    ensures forall x :: x in SetDelete(s, h) <==> x in s && x != h
    ensures !(h in s) ==> SetDelete(s, h) == s
    ensures NoDup(s) ==> NoDup(SetDelete(s, h))
    ensures |SetDelete(s, h)| <= |s|
  {
    if s != [] {
      SetDeleteSpec(s[1..], h);
      var rest := SetDelete(s[1..], h);
      if !(h in s) {
        assert [s[0]] + s[1..] == s;
      }
      if NoDup(s) {
        assert NoDup(s[1..]) by {
          forall i, j | 0 <= i < j < |s[1..]| ensures s[1..][i] != s[1..][j] {
            assert s[1..][i] == s[i + 1] && s[1..][j] == s[j + 1];
          }
        }
        assert s[0] !in s[1..] by {
          forall i | 0 <= i < |s[1..]| ensures s[1..][i] != s[0] {
            assert s[1..][i] == s[i + 1];
          }
        }
      }
    }
  }

  /** Registering a handler and then unregistering it, when it was not
      registered before, restores the set. */
  lemma {:induction false} AddThenDeleteRestores(s: seq<HandlerId>, h: HandlerId)
    requires h !in s
    ensures SetDelete(SetAdd(s, h), h) == s
  {
    if s == [] {
      assert SetAdd(s, h) == [h];
      assert SetDelete([h], h) == [] + SetDelete([], h);
    } else {
      AddThenDeleteRestores(s[1..], h);
      assert SetAdd(s, h)[1..] == SetAdd(s[1..], h);
      assert SetAdd(s, h)[0] == s[0];
      assert [s[0]] + s[1..] == s;
    }
  }

  // ---------------------------------------------------------------------
  // Incoming messages and dispatch

  /** What a channel's `onmessage` receives: binary data (movie chunks), text
      that is not JSON, or parsed JSON with its `type` (None when absent or
      falsy) and `payload`. */
  datatype Incoming = Binary(bytes: seq<byte>) | Unparsable | Parsed(msgType: Option<string>, payload: Json)

  datatype DropReason = NotJson | MissingType | UnknownChannel | NoHandlers(msgType: string)

  /** Which handler set a message selects, or why it is dropped. `JSON.parse`
      of an `ArrayBuffer` reads the text "[object ArrayBuffer]" and throws. */
  function Route(handlers: map<string, map<string, seq<HandlerId>>>, channelLabel: string, incoming: Incoming)
    : (r: Result<seq<HandlerId>, DropReason>)
    ensures incoming.Binary? || incoming.Unparsable? ==> r == Err(NotJson)
    ensures r.Ok? ==>
      && incoming.Parsed? && incoming.msgType.Some? && incoming.msgType.value != ""
      && channelLabel in handlers && incoming.msgType.value in handlers[channelLabel]
      && r.value == handlers[channelLabel][incoming.msgType.value]
  {
    match incoming
    case Binary(_) => Err(NotJson)
    case Unparsable => Err(NotJson)
    case Parsed(t, _) =>
      if t.None? || t.value == "" then Err(MissingType)
      else if channelLabel !in handlers then Err(UnknownChannel)
      else if t.value !in handlers[channelLabel] then Err(NoHandlers(t.value))
      else Ok(handlers[channelLabel][t.value])
  }

  /** The handlers among `hs` that throw, in call order. */
  function Throwers(hs: seq<HandlerId>, throwing: set<HandlerId>): seq<HandlerId>
  {
    if hs == [] then [] else (if hs[0] in throwing then [hs[0]] else []) + Throwers(hs[1..], throwing)
  }

  lemma ThrowersSnoc(hs: seq<HandlerId>, h: HandlerId, throwing: set<HandlerId>)
    ensures Throwers(hs + [h], throwing) == Throwers(hs, throwing) + (if h in throwing then [h] else [])
  {
    if hs != [] {
      assert (hs + [h])[1..] == hs[1..] + [h];
      ThrowersSnoc(hs[1..], h, throwing);
    }
  }

  /** What one `onmessage` call did: dropped the message, or called every
      handler of its set with the payload, logging the ones that threw. */
  datatype DispatchOutcome = Dropped(reason: DropReason) | Delivered(payload: Json, called: seq<HandlerId>, failed: seq<HandlerId>)

  // ---------------------------------------------------------------------
  // sendControl

  datatype ControlMessage = ControlMessage(msgType: string, payload: Json, timestamp: int)

  datatype SendOutcome = InvalidType | ChannelNotOpen | Sent(message: ControlMessage)

  /** `sendControl(type, payload)` at time `now`: refuse a type that is not a
      value of `ControlMessageTypes`, send only on an open channel. */
  function SendControl(msgType: Option<string>, payload: Json, channelOpen: bool, now: int): (r: SendOutcome)
    ensures r.InvalidType? <==> msgType.None? || msgType.value !in ControlValues
    ensures r.ChannelNotOpen? <==> msgType.Some? && msgType.value in ControlValues && !channelOpen
    ensures r.Sent? ==> r.message == ControlMessage(msgType.value, payload, now)
  {
    if msgType.None? || msgType.value !in ControlValues then InvalidType
    else if !channelOpen then ChannelNotOpen
    else Sent(ControlMessage(msgType.value, payload, now))
  }

  /** The sent message as the peer's control channel receives it
      (`JSON.stringify` then `JSON.parse`). */
  function Received(m: ControlMessage): Incoming
  {
    Parsed(Some(m.msgType), m.payload)
  }

  /** `sendControl` refuses both names `ControlMessageTypes` lacks, whatever
      the channel state. */
  lemma MissingControlTypesNeverSent(payload: Json, open: bool, now: int)
    ensures SendControl(ControlMessageType(MovieReady), payload, open, now) == InvalidType
    ensures SendControl(ControlMessageType(MovieBufferLow), payload, open, now) == InvalidType
  {
  }

  /** Binary frames never reach a handler: every movie chunk sent as an
      `ArrayBuffer` is dropped by the JSON parse. */
  lemma BinaryFramesDropped(handlers: map<string, map<string, seq<HandlerId>>>, channelLabel: string, bytes: seq<byte>)
    ensures Route(handlers, channelLabel, Binary(bytes)) == Err(NotJson)
  {
  }

  // ---------------------------------------------------------------------
  // The registry object

  /** What `registerHandler` closes over for its unregister function. */
  datatype Registration = Registration(channelType: string, messageType: string, handler: HandlerId)

  class MessageHandlers {
    var handlers: map<string, map<string, seq<HandlerId>>>

    /** The channels and their type keys are those of the initial registry
        (only the sets change), and every set is duplicate-free. */
    ghost predicate Valid()
      reads this
    {
      && handlers.Keys == InitialHandlers().Keys
      && (forall c :: c in handlers ==> handlers[c].Keys == InitialHandlers()[c].Keys)
      && (forall c, t :: c in handlers && t in handlers[c] ==> NoDup(handlers[c][t]))
    }

    constructor ()
      ensures Valid() && handlers == InitialHandlers()
    {
      handlers := InitialHandlers();
    }

    /** `registerHandler(channelType, messageType, handler)`: nothing for an
        unknown channel or type; otherwise add the handler to its set and
        return what the unregister function needs. */
    method RegisterHandler(channelType: string, messageType: Option<string>, handler: HandlerId)
      returns (r: Option<Registration>)
      requires Valid()
      modifies this
      ensures Valid()
      ensures var key := PropertyKey(messageType);
        && (r.None? <==> !(channelType in old(handlers) && key in old(handlers)[channelType]))
        && (r.None? ==> handlers == old(handlers))
        && (r.Some? ==> (r.value == Registration(channelType, key, handler) &&
              handlers == old(handlers)[channelType := old(handlers)[channelType][key := SetAdd(old(handlers)[channelType][key], handler)]]))
    {
      if channelType !in handlers {
        return None;
      }
      var key := PropertyKey(messageType);
      if key !in handlers[channelType] {
        return None;
      }
      SetAddSpec(handlers[channelType][key], handler);
      handlers := handlers[channelType := handlers[channelType][key := SetAdd(handlers[channelType][key], handler)]];
      r := Some(Registration(channelType, key, handler));
    }

    /** The returned unregister function: delete that handler from that set. */
    method Unregister(reg: Registration)
      requires Valid()
      requires reg.channelType in handlers && reg.messageType in handlers[reg.channelType]
      modifies this
      ensures Valid()
      ensures handlers == old(handlers)[reg.channelType := old(handlers)[reg.channelType][reg.messageType :=
                SetDelete(old(handlers)[reg.channelType][reg.messageType], reg.handler)]]
    {
      var c, t := reg.channelType, reg.messageType;
      SetDeleteSpec(handlers[c][t], reg.handler);
      handlers := handlers[c := handlers[c][t := SetDelete(handlers[c][t], reg.handler)]];
    }

    /** The body of `onmessage` on the channel labelled `channelLabel`: route the
        message, then call each handler of the set in order; a handler in
        `throwing` throws, which is logged and does not stop the others. */
    method Dispatch(channelLabel: string, incoming: Incoming, throwing: set<HandlerId>) returns (outcome: DispatchOutcome)
      ensures Route(handlers, channelLabel, incoming).Err? ==> outcome == Dropped(Route(handlers, channelLabel, incoming).error)
      ensures Route(handlers, channelLabel, incoming).Ok? ==>
        outcome == Delivered(incoming.payload, Route(handlers, channelLabel, incoming).value,
                             Throwers(Route(handlers, channelLabel, incoming).value, throwing))
    {
      var route := Route(handlers, channelLabel, incoming);
      if route.Err? {
        return Dropped(route.error);
      }
      var hs := handlers[channelLabel][incoming.msgType.value];
      var called: seq<HandlerId> := [];
      var failed: seq<HandlerId> := [];
      for i := 0 to |hs|
        invariant called == hs[..i]
        invariant failed == Throwers(hs[..i], throwing)
      {
        var h := hs[i];
        called := called + [h];
        if h in throwing {
          failed := failed + [h];
        }
        ThrowersSnoc(hs[..i], h, throwing);
        assert hs[..i + 1] == hs[..i] + [h];
      }
      assert hs[..|hs|] == hs;
      outcome := Delivered(incoming.payload, called, failed);
    }
  }

  /** Any message `sendControl` accepts reaches, on the peer's control
      channel, exactly the handler set registered for its type. */
  lemma SentControlReachesItsHandlers(handlers: map<string, map<string, seq<HandlerId>>>,
                                      msgType: Option<string>, payload: Json, now: int)
    requires handlers.Keys == InitialHandlers().Keys
    requires forall c :: c in handlers ==> handlers[c].Keys == InitialHandlers()[c].Keys
    ensures var s := SendControl(msgType, payload, true, now);
      s.Sent? ==> Route(handlers, "control", Received(s.message)) == Ok(handlers["control"][s.message.msgType])
  {
    assert "control" in InitialHandlers();
  }

  /** With a registry in its valid shape, registering the two undefined
      control names is refused; the four defined ones are accepted. */
  lemma ControlRegistrationRule(handlers: map<string, map<string, seq<HandlerId>>>, n: ControlName)
    requires handlers.Keys == InitialHandlers().Keys
    requires forall c :: c in handlers ==> handlers[c].Keys == InitialHandlers()[c].Keys
    ensures "control" in handlers
    ensures PropertyKey(ControlMessageType(n)) in handlers["control"] <==> n != MovieReady && n != MovieBufferLow
  {
    ControlKeysAreTheFourValues();
    assert "control" in InitialHandlers();
  }
}
