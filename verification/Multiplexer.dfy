/**
 * The multiplexer object: a dictionary of channel objects, and the dispatch of raw messages.
 */
module MultiplexerClass {
  import opened Wrappers
  import opened Frames
  import opened Fragmentation
  import opened Reliable
  import opened ReliableChannelClass
  import Mux

  // What a raw message makes of the ends of a peer's channels, by id, and of the calls of
  // `on_channel`.
  function EndsAfter(cfg: Config, ends: map<nat, End>, raw: Bytes): map<nat, End> {
    match Deserialize(raw)
    case Err(_) => ends
    case Ok(f) =>
      var c := f.channelId;
      ends[c := Handled(Mux.For(cfg, c), EndOf(ends, c), f)]
  }

  // The message decodes to a frame of channel c.
  predicate Names(raw: Bytes, c: nat) {
    Deserialize(raw).Ok? && Deserialize(raw).value.channelId == c
  }

  // No reply the message calls for is refused by the encoder.
  predicate Answerable(cfg: Config, raw: Bytes) {
    match Deserialize(raw)
    case Err(_) => true
    case Ok(f) => CanReply(Mux.For(cfg, f.channelId), f)
  }

  function EndOf(ends: map<nat, End>, c: nat): End {
    if c in ends then ends[c] else NEW_END
  }

  function AnnouncedAfter(ends: map<nat, End>, announced: seq<nat>, raw: Bytes): seq<nat> {
    match Deserialize(raw)
    case Err(_) => announced
    case Ok(f) => if f.channelId in ends then announced else announced + [f.channelId]
  }

  class Multiplexer {
    const cfg: Config
    var nextChannelId: nat
    var channels: map<nat, ReliableChannel>
    // The ids `on_channel` was called with.
    var announced: seq<nat>
    // What each of those channels held and had sent when `on_channel` was called with it.
    var introduced: seq<End>

    // Every id has a channel object of its own, with that id and the multiplexer's settings.
    ghost predicate Valid()
      reads this
    {
      && (forall c :: c in channels ==>
            && channels[c].cfg.channelId == c
            && channels[c].cfg.mtu == cfg.mtu && channels[c].cfg.windowSize == cfg.windowSize
            && channels[c].cfg.maxRetransmits == cfg.maxRetransmits && channels[c].cfg.baseRto == cfg.baseRto)
      && (forall c, d :: c in channels && d in channels && c != d ==> channels[c] != channels[d])
    }

    function Ends(): map<nat, End>
      reads this, set c | c in channels :: channels[c]
    {
      map c | c in channels :: channels[c].State()
    }

    constructor (cfg: Config, isOfferer: bool)
      ensures Valid() && this.cfg == cfg && channels == map[] && announced == [] && introduced == []
      ensures nextChannelId == if isOfferer then 1 else 2
    {
      this.cfg := cfg;
      nextChannelId := if isOfferer then 1 else 2;
      channels, announced, introduced := map[], [], [];
    }

    method OpenChannel() returns (ch: ReliableChannel)
      requires Valid()
      modifies this
      ensures Valid() && fresh(ch)
      ensures ch.State() == NEW_END
      ensures nextChannelId == old(nextChannelId) + 2 && announced == old(announced) && introduced == old(introduced)
      ensures channels == old(channels)[old(nextChannelId) := ch]
    {
      var id := nextChannelId;
      nextChannelId := nextChannelId + 2;
      ch := new ReliableChannel(Mux.For(cfg, id));
      channels := channels[id := ch];
    }

    method GetOrCreate(id: nat) returns (ch: ReliableChannel, isNew: bool)
      requires Valid()
      modifies this`channels
      ensures Valid() && isNew == (id !in old(channels))
      ensures !isNew ==> ch == old(channels)[id] && channels == old(channels)
      ensures isNew ==> fresh(ch) && ch.State() == NEW_END
      ensures channels == old(channels)[id := ch]
    {
      if id !in channels {
        ch := new ReliableChannel(Mux.For(cfg, id));
        channels := channels[id := ch];
        return ch, true;
      }
      return channels[id], false;
    }

    // A decoded frame: its channel is found, or created and announced before it sees the frame.
    method Dispatch(f: Frame) returns (ok: bool)
      requires Valid()
      modifies this`channels, this`announced, this`introduced, set c | c in channels :: channels[c]
      ensures Valid() && ok == CanReply(Mux.For(cfg, f.channelId), f)
      ensures channels.Keys == old(channels).Keys + {f.channelId}
      ensures channels[f.channelId].State() == Handled(Mux.For(cfg, f.channelId), EndOf(old(Ends()), f.channelId), f)
      ensures announced == if f.channelId in old(channels) then old(announced) else old(announced) + [f.channelId]
      ensures introduced == if f.channelId in old(channels) then old(introduced) else old(introduced) + [NEW_END]
      ensures forall c :: c in old(channels) ==> c in channels && channels[c] == old(channels)[c]
      ensures forall c :: c in old(channels) && c != f.channelId ==> unchanged(channels[c])
    {
      var ch, isNew := GetOrCreate(f.channelId);
      if isNew {
        announced, introduced := announced + [f.channelId], introduced + [ch.State()];
      }
      assert channels[f.channelId] == ch;
      Mux.ForIs(cfg, f.channelId, ch.cfg);
      ok := ch.HandleFrame(f);
    }

    // When one channel changed, or came in, the ends change there only.
    twostate lemma OneEndChanged(id: nat)
      requires channels.Keys == old(channels).Keys + {id}
      requires forall c :: c in old(channels) && c != id ==>
                 channels[c] == old(channels)[c] && channels[c].State() == old(channels[c].State())
      ensures Ends() == old(Ends())[id := channels[id].State()]
    {
    }

    /**
     * `handle_raw`: a message the decoder refuses changes nothing.  Otherwise the frame's channel is
     * found, or created and announced before it sees the frame, and it alone handles the frame.
     */
    method HandleRaw(data: Bytes) returns (ok: bool)
      requires Valid()
      modifies this`channels, this`announced, this`introduced, set c | c in channels :: channels[c]
      ensures Valid() && Ends() == EndsAfter(cfg, old(Ends()), data)
      ensures announced == AnnouncedAfter(old(Ends()), old(announced), data)
      ensures Deserialize(data).Err? ==>
                channels == old(channels) && announced == old(announced) && introduced == old(introduced)
      ensures forall c :: Names(data, c) ==>
                && c in channels
                && announced == (if c in old(channels) then old(announced) else old(announced) + [c])
                && introduced == if c in old(channels) then old(introduced) else old(introduced) + [NEW_END]
      ensures ok == Answerable(cfg, data)
      ensures forall c :: c in old(channels) ==> c in channels && channels[c] == old(channels)[c]
      ensures forall c :: c in old(channels) && !Names(data, c) ==> unchanged(channels[c])
    {
      var r := Deserialize(data);
      match r
      case Err(_) => ok := true;
      case Ok(f) =>
        ok := Dispatch(f);
        OneEndChanged(f.channelId);
    }
  }
}
