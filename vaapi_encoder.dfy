/**
 * The VAAPI video encoder wrapper of src/encoders/vaapi_encoder.rs. Unlike
 * the NVENC wrapper it keeps no buffer of its own: every packet the codec
 * hands back is offered to a 120-slot single-producer single-consumer ring,
 * which drops the packet when full. The consumer end is handed out once by
 * `take_encoded_recv`; the codec context and its filter graph live in
 * Options that `drop_encoder` takes and `reset` refills.
 *
 * The codec and the filter graph are oracles: `process` and `drain` take,
 * as parameters, the outcome of sending to the codec and the packets it
 * then yields.
 */
module Vaapi {
  import opened Wrappers
  import opened EncoderTypes
  import opened Buffer

  /** Slots of the encoded-packet ring. */
  const RING_CAPACITY: nat := 120

  // ---------------------------------------------------------------------
  // Codec options
  // ---------------------------------------------------------------------

  /** The constant-QP level of each preset in `get_encoder_params`. */
  function QpFor(q: QualityPreset): (qp: nat)
    ensures 15 <= qp <= 30
  {
    match q
    case Low => 30
    case Medium => 25
    case High => 20
    case Ultra => 15
  }

  /** The option dictionary `get_encoder_params` builds for a preset. */
  function EncoderParams(q: QualityPreset): (opts: map<string, string>)
    ensures opts.Keys == {"vsync", "rc", "qp"}
    ensures opts["vsync"] == "vfr" && opts["rc"] == "VBR"
  {
    var qp := match q
      case Low => "30"
      case Medium => "25"
      case High => "20"
      case Ultra => "15";
    map["vsync" := "vfr", "rc" := "VBR", "qp" := qp]
  }

  /** The `qp` option is the decimal spelling of the preset's QP level. */
  lemma EncoderParamsSpellsQp(q: QualityPreset)
    ensures |EncoderParams(q)["qp"]| == 2
    ensures var s := EncoderParams(q)["qp"];
      QpFor(q) == 10 * ((s[0] as int) - ('0' as int)) + ((s[1] as int) - ('0' as int))
  {
  }

  /** A higher preset asks for a strictly lower QP, that is finer quantisation. */
  lemma QpMonotone(a: QualityPreset, b: QualityPreset)
    requires Rank(a) < Rank(b)
    ensures QpFor(b) < QpFor(a)
  {
  }

  // ---------------------------------------------------------------------
  // The ring: value-level specification
  // ---------------------------------------------------------------------

  /** One ring entry: a packet's DTS and the frame made of it. */
  type RingItem = (int, VideoFrameData)

  /** `try_push` as a function of the contents: append when there is a free slot, otherwise keep the contents. */
  function PushOrDrop(items: seq<RingItem>, x: RingItem, capacity: nat): (r: seq<RingItem>)
    ensures |items| <= |r| <= |items| + 1 && r[..|items|] == items
    ensures |r| > |items| <==> |items| < capacity
    ensures |r| > |items| ==> r[|items|] == x
  {
    if |items| < capacity then items + [x] else items
  }

  /** Offering entries one after another to a ring with no consumer running. */
  function PushAll(items: seq<RingItem>, xs: seq<RingItem>, capacity: nat): (r: seq<RingItem>)
    ensures |items| <= |r| <= |items| + |xs|
    ensures |items| <= capacity ==> |r| <= capacity
    decreases |xs|
  {
    if xs == [] then items
    else PushOrDrop(PushAll(items, xs[..|xs| - 1], capacity), xs[|xs| - 1], capacity)
  }

  function Min(a: int, b: int): int
  {
    if a < b then a else b
  }

  /**
   * With no consumer running, a ring within its capacity ends up holding
   * its old contents followed by the first offered entries, in order, as
   * many as there were free slots: later entries are dropped and nothing
   * is reordered.
   */
  lemma {:induction false} PushAllKeepsOrderAndDropsExcess(items: seq<RingItem>, xs: seq<RingItem>, capacity: nat)
    requires |items| <= capacity
    ensures PushAll(items, xs, capacity) == items + xs[..Min(|xs|, capacity - |items|)]
    ensures |PushAll(items, xs, capacity)| <= capacity
    decreases |xs|
  {
    if xs != [] {
      var n := |xs| - 1;
      PushAllKeepsOrderAndDropsExcess(items, xs[..n], capacity);
      var k := Min(n, capacity - |items|);
      assert xs[..n][..k] == xs[..k];
      if n < capacity - |items| {
        assert xs[..k] + [xs[n]] == xs[..n + 1];
      }
    }
  }

  /** The entries a run of received packets becomes: those with a payload, in order. */
  function PacketItems(pkts: seq<Packet>): (r: seq<RingItem>)
    ensures |r| <= |pkts|
    decreases |pkts|
  {
    if pkts == [] then []
    else
      var e := PacketEntry(pkts[|pkts| - 1]);
      PacketItems(pkts[..|pkts| - 1]) + (if e.Some? then [e.value] else [])
  }

  /** Packets without a payload add nothing; every entry is the entry of some packet. */
  lemma {:induction false} PacketItemsFromPackets(pkts: seq<Packet>)
    ensures forall j :: 0 <= j < |PacketItems(pkts)| ==>
      exists i :: 0 <= i < |pkts| && PacketEntry(pkts[i]) == Some(PacketItems(pkts)[j])
    ensures (forall i :: 0 <= i < |pkts| ==> pkts[i].data.Some?) ==> |PacketItems(pkts)| == |pkts|
    decreases |pkts|
  {
    if pkts != [] {
      var n := |pkts| - 1;
      PacketItemsFromPackets(pkts[..n]);
      var prev := PacketItems(pkts[..n]);
      var e := PacketEntry(pkts[n]);
      var r := PacketItems(pkts);
      assert r == prev + (if e.Some? then [e.value] else []);
      forall j | 0 <= j < |PacketItems(pkts)|
        ensures exists i :: 0 <= i < |pkts| && PacketEntry(pkts[i]) == Some(PacketItems(pkts)[j])
      {
        if j < |prev| {
          var i :| 0 <= i < n && PacketEntry(pkts[..n][i]) == Some(prev[j]);
          assert pkts[i] == pkts[..n][i] && r[j] == prev[j];
        } else {
          assert r[j] == e.value;
          assert PacketEntry(pkts[n]) == Some(r[j]);
        }
      }
      if forall i :: 0 <= i < |pkts| ==> pkts[i].data.Some? {
        assert forall i :: 0 <= i < n ==> pkts[..n][i] == pkts[i];
      }
    } else {
      assert PacketItems(pkts) == [];
    }
  }

  // ---------------------------------------------------------------------
  // The ring
  // ---------------------------------------------------------------------

  /** The bounded SPSC ring shared by the encoder (producer) and the capture worker (consumer). */
  class EncodedRing {
    var items: seq<RingItem>
    const capacity: nat

    predicate Valid()
      reads this
    {
      |items| <= capacity
    }

    constructor (capacity: nat)
      ensures Valid()
      ensures items == [] && this.capacity == capacity
    {
      items := [];
      this.capacity := capacity;
    }

    /** Append the entry when a slot is free; otherwise drop it and report failure. */
    method TryPush(x: RingItem) returns (pushed: bool)
      requires Valid()
      modifies this
      ensures Valid()
      ensures items == PushOrDrop(old(items), x, capacity)
      ensures pushed <==> |old(items)| < capacity
    {
      pushed := |items| < capacity;
      if pushed {
        items := items + [x];
      }
    }

    /** The consumer end: take the oldest entry, None when empty. */
    method TryPop() returns (x: Option<RingItem>)
      requires Valid()
      modifies this
      ensures Valid()
      ensures old(items) == [] ==> x.None? && items == []
      ensures old(items) != [] ==> x == Some(old(items)[0]) && items == old(items)[1..]
    {
      if items == [] {
        return None;
      }
      x := Some(items[0]);
      items := items[1..];
    }
  }

  // ---------------------------------------------------------------------
  // The encoder
  // ---------------------------------------------------------------------

  /** An opened filter graph, opaque to the model. */
  datatype FilterGraph = FilterGraph(name: string)

  class VaapiEncoder {
    var encoder: Option<CodecHandle>
    var filterGraph: Option<FilterGraph>
    /** The consumer end, until `take_encoded_recv` hands it out. */
    var encodedRecv: Option<EncodedRing>
    /** The producer end. */
    var encodedSender: Option<EncodedRing>
    /** The ring both ends refer to. */
    const ring: EncodedRing
    const width: u32
    const height: u32
    const encoderName: string
    const quality: QualityPreset

    /** The codec and its filter graph come and go together, and both ring ends refer to the one ring. */
    predicate Valid()
      reads this, ring
    {
      && (encoder.Some? <==> filterGraph.Some?)
      && (encodedRecv.Some? ==> encodedRecv.value == ring)
      && (encodedSender.Some? ==> encodedSender.value == ring)
      && ring.Valid()
      && ring.capacity == RING_CAPACITY
    }

    /**
     * `new` once `create_encoder` and `create_filter_graph` have succeeded
     * (their errors are returned unchanged otherwise): codec, graph and both
     * ring ends are present and the ring is empty.
     */
    constructor (width: u32, height: u32, quality: QualityPreset, codec: CodecHandle, graph: FilterGraph)
      ensures Valid()
      ensures fresh(ring)
      ensures encoder == Some(codec) && filterGraph == Some(graph)
      ensures encodedRecv == Some(ring) && encodedSender == Some(ring) && ring.items == []
      ensures this.width == width && this.height == height && this.quality == quality && encoderName == "h264_vaapi"
    {
      var r := new EncodedRing(RING_CAPACITY);
      ring := r;
      encoder := Some(codec);
      filterGraph := Some(graph);
      encodedRecv := Some(r);
      encodedSender := Some(r);
      this.width := width;
      this.height := height;
      this.quality := quality;
      encoderName := "h264_vaapi";
    }

    /** Offer a received packet to the ring when it has a payload and the producer end is present. */
    method Offer(p: Packet)
      requires Valid()
      modifies ring
      ensures Valid()
      ensures PacketEntry(p).Some? && encodedSender.Some? ==>
        ring.items == PushOrDrop(old(ring.items), PacketEntry(p).value, RING_CAPACITY)
      ensures PacketEntry(p).None? || encodedSender.None? ==> ring.items == old(ring.items)
    {
      var entry := PacketEntry(p);
      if entry.Some? && encodedSender.Some? {
        var _ := encodedSender.value.TryPush(entry.value);
      }
    }

    /**
     * Encode one frame. Without a codec nothing happens. A failed send to
     * the codec is returned. Otherwise the packet `receive_packet` yields,
     * if any, is offered to the ring, and dropped when the ring is full.
     */
    method Process(sent: Result<(), CodecError>, received: Option<Packet>) returns (r: Result<(), CodecError>)
      requires Valid()
      modifies ring
      ensures Valid()
      ensures encoder.None? ==> r == Ok(()) && ring.items == old(ring.items)
      ensures encoder.Some? && sent.Err? ==> r == sent && ring.items == old(ring.items)
      ensures encoder.Some? && sent.Ok? ==>
        && r == Ok(())
        && ring.items == (if received.Some? && encodedSender.Some?
                          then PushAll(old(ring.items), PacketItems([received.value]), RING_CAPACITY)
                          else old(ring.items))
    {
      if encoder.None? {
        return Ok(());
      }
      if sent.Err? {
        return sent;
      }
      if received.Some? {
        assert [received.value][..0] == [];
        Offer(received.value);
      }
      r := Ok(());
    }

    /**
     * Flush the filter graph and the codec. Without a codec nothing
     * happens. Each frame still in the graph is sent to the codec, and the
     * first failed send is returned; then end-of-stream is sent, its
     * failure returned; then every packet the codec still yields is offered
     * to the ring in order.
     */
    method Drain(flushed: seq<Result<(), CodecError>>, eof: Result<(), CodecError>, received: seq<Packet>)
      returns (r: Result<(), CodecError>)
      requires Valid()
      modifies ring
      ensures Valid()
      ensures encoder.None? ==> r == Ok(()) && ring.items == old(ring.items)
      ensures encoder.Some? && (exists i :: 0 <= i < |flushed| && flushed[i].Err?) ==>
        && (exists i :: 0 <= i < |flushed| && r == flushed[i] && forall j :: 0 <= j < i ==> flushed[j].Ok?)
        && r.Err? && ring.items == old(ring.items)
      ensures encoder.Some? && (forall i :: 0 <= i < |flushed| ==> flushed[i].Ok?) && eof.Err? ==>
        r == eof && ring.items == old(ring.items)
      ensures encoder.Some? && (forall i :: 0 <= i < |flushed| ==> flushed[i].Ok?) && eof.Ok? ==>
        && r == Ok(())
        && ring.items == (if encodedSender.Some? then PushAll(old(ring.items), PacketItems(received), RING_CAPACITY)
                          else old(ring.items))
    {
      if encoder.None? {
        return Ok(());
      }
      for i := 0 to |flushed|
        invariant forall j :: 0 <= j < i ==> flushed[j].Ok?
      {
        if flushed[i].Err? {
          return flushed[i];
        }
      }
      if eof.Err? {
        return eof;
      }
      for i := 0 to |received|
        invariant Valid()
        invariant ring.items == (if encodedSender.Some? then PushAll(old(ring.items), PacketItems(received[..i]), RING_CAPACITY)
                                 else old(ring.items))
      {
        assert received[..i + 1][..i] == received[..i];
        Offer(received[i]);
        if encodedSender.Some? {
          PushAllStep(old(ring.items), PacketItems(received[..i]), PacketEntry(received[i]));
          assert PacketItems(received[..i + 1]) ==
            PacketItems(received[..i]) + (if PacketEntry(received[i]).Some? then [PacketEntry(received[i]).value] else []);
        }
      }
      assert received[..|received|] == received;
      r := Ok(());
    }

    /** Hand out the consumer end: the first call gets it, every later call gets None. */
    method TakeEncodedRecv() returns (recv: Option<EncodedRing>)
      requires Valid()
      modifies this
      ensures Valid()
      ensures recv == old(encodedRecv) && encodedRecv.None?
      ensures encoder == old(encoder) && filterGraph == old(filterGraph) && encodedSender == old(encodedSender)
    {
      recv := encodedRecv;
      encodedRecv := None;
    }

    /** Release the codec and its filter graph; the ring and its ends stay. */
    method DropEncoder()
      requires Valid()
      modifies this
      ensures Valid()
      ensures encoder.None? && filterGraph.None?
      ensures encodedRecv == old(encodedRecv) && encodedSender == old(encodedSender)
    {
      encoder := None;
      filterGraph := None;
    }

    /**
     * Drop the codec and build a new one with its filter graph. A failure
     * of either is returned and leaves both dropped; on success both are
     * present. `reopened` and `regraphed` are what `create_encoder` and
     * `create_filter_graph` give.
     */
    method Reset(reopened: Result<CodecHandle, CodecError>, regraphed: Result<FilterGraph, CodecError>)
      returns (r: Result<(), CodecError>)
      requires Valid()
      modifies this
      ensures Valid()
      ensures encodedRecv == old(encodedRecv) && encodedSender == old(encodedSender)
      ensures reopened.Err? ==> r == Err(reopened.error) && encoder.None? && filterGraph.None?
      ensures reopened.Ok? && regraphed.Err? ==> r == Err(regraphed.error) && encoder.None? && filterGraph.None?
      ensures reopened.Ok? && regraphed.Ok? ==>
        r == Ok(()) && encoder == Some(reopened.value) && filterGraph == Some(regraphed.value)
    {
      DropEncoder();
      if reopened.Err? {
        return Err(reopened.error);
      }
      if regraphed.Err? {
        return Err(regraphed.error);
      }
      encoder := Some(reopened.value);
      filterGraph := Some(regraphed.value);
      r := Ok(());
    }
  }

  /** Offering one more optional entry extends the run of offers by that entry. */
  lemma PushAllStep(items: seq<RingItem>, xs: seq<RingItem>, e: Option<RingItem>)
    ensures PushAll(items, xs + (if e.Some? then [e.value] else []), RING_CAPACITY) ==
      if e.Some? then PushOrDrop(PushAll(items, xs, RING_CAPACITY), e.value, RING_CAPACITY) else PushAll(items, xs, RING_CAPACITY)
  {
    if e.Some? {
      assert (xs + [e.value])[..|xs|] == xs;
    } else {
      assert xs + [] == xs;
    }
  }
}
