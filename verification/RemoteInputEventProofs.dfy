/** Facts about events and snapshots alone: folding them into a Host, dropping superseded moves, and
    the encoding of held keys. */
module RemoteInputEventProofs {
  import opened RemoteInputModel

  lemma FeelAllConcat(h: Host, a: seq<Event>, b: seq<Event>)
    ensures FeelAll(h, a + b) == FeelAll(FeelAll(h, a), b)
    decreases |a|
  {
    if a == [] {
      assert a + b == b;
    } else {
      assert (a + b)[1..] == a[1..] + b;
      FeelAllConcat(Feel(h, a[0]), a[1..], b);
    }
  }

  lemma FeelAllOne(h: Host, e: Event)
    ensures FeelAll(h, [e]) == Feel(h, e)
  {
    assert [e][1..] == [];
  }

  // ---- Thinning ----

  /** `kept` is `offered` without some moves, each dropped one immediately followed by another move. */
  predicate Thins(offered: seq<Event>, kept: seq<Event>)
    decreases |offered|
  {
    if offered == [] then kept == []
    else
      || (kept != [] && kept[0] == offered[0] && Thins(offered[1..], kept[1..]))
      || (offered[0].Move? && |offered| > 1 && offered[1].Move? && Thins(offered[1..], kept))
  }

  lemma ThinsAppend(offered: seq<Event>, kept: seq<Event>, e: Event)
    requires Thins(offered, kept)
    ensures Thins(offered + [e], kept + [e])
    decreases |offered|
  {
    if offered == [] {
      assert [e][1..] == [] && offered + [e] == [e] && kept + [e] == [e];
    } else {
      assert (offered + [e])[1..] == offered[1..] + [e];
      if kept != [] && kept[0] == offered[0] && Thins(offered[1..], kept[1..]) {
        assert (kept + [e])[1..] == kept[1..] + [e];
        ThinsAppend(offered[1..], kept[1..], e);
      } else {
        ThinsAppend(offered[1..], kept, e);
      }
    }
  }

  /** A waiting move that is replaced was the last event offered. */
  lemma {:induction false} ThinsReplace(offered: seq<Event>, kept: seq<Event>, last: Event, e: Event)
    requires offered != [] && offered[|offered| - 1] == last && last.Move? && e.Move?
    requires Thins(offered, kept + [last])
    ensures Thins(offered + [e], kept + [e])
    decreases |offered|
  {
    var k, k' := kept + [last], kept + [e];
    assert (offered + [e])[1..] == offered[1..] + [e];
    if k[0] == offered[0] && Thins(offered[1..], k[1..]) {
      if kept == [] {
        assert k[1..] == [] && k'[1..] == [];
        ThinsNothing(offered[1..]);
        assert offered + [e] == [last, e] && k' == [e];
        assert [last, e][1..] == [e] && [e][1..] == [];
      } else {
        assert k[1..] == kept[1..] + [last] && k'[1..] == kept[1..] + [e];
        LastIsLater(offered, kept, last);
        ThinsReplace(offered[1..], kept[1..], last, e);
      }
    } else {
      ThinsReplace(offered[1..], kept, last, e);
    }
  }

  lemma ThinsNothing(offered: seq<Event>)
    requires Thins(offered, [])
    ensures offered == []
    decreases |offered|
  {
    if offered != [] { ThinsNothing(offered[1..]); }
  }

  lemma LastIsLater(offered: seq<Event>, kept: seq<Event>, last: Event)
    requires offered != [] && kept != [] && Thins(offered[1..], (kept + [last])[1..])
    ensures |offered| > 1
  {
    assert (kept + [last])[1..] == kept[1..] + [last];
  }

  function NonMoves(events: seq<Event>): seq<Event> {
    if events == [] then []
    else (if events[0].Move? then [] else [events[0]]) + NonMoves(events[1..])
  }

  /** What is kept has every event that is not a move, in order, and leaves any Host as everything
      offered would have left it, pointer included. */
  lemma ThinningKeepsMeaning(offered: seq<Event>, kept: seq<Event>, h: Host)
    requires Thins(offered, kept)
    ensures NonMoves(kept) == NonMoves(offered)
    ensures FeelAll(h, kept) == FeelAll(h, offered)
    ensures |kept| <= |offered|
    decreases |offered|
  {
    if offered == [] {
    } else if kept != [] && kept[0] == offered[0] && Thins(offered[1..], kept[1..]) {
      ThinningKeepsMeaning(offered[1..], kept[1..], Feel(h, offered[0]));
    } else {
      var next := offered[1..];
      ThinningKeepsMeaning(next, kept, h);
      assert Feel(Feel(h, offered[0]), next[0]) == Feel(h, next[0]);
      assert FeelAll(h, offered) == FeelAll(Feel(h, offered[0]), next);
    }
  }

  // ---- Snapshots ----

  predicate ProperKey(k: Key) { 1 <= k % 0x1_0000 <= 0xFF && k == KeyOf(k % 0x1_0000, k >= 0x1_0000) }

  predicate ProperKeys(keys: set<Key>) { forall k :: k in keys ==> ProperKey(k) }

  /** The identity of a key event is always a normal form. */
  predicate NormalKey(k: Key) { k == KeyOf(k % 0x1_0000, k >= 0x1_0000) }

  lemma CodeOfKey(k: Key)
    requires NormalKey(k)
    ensures Encode(k) % 0x8000 == k % 0x8000
    ensures 1 <= k % 0x1_0000 < 0x8000 ==> Decode(Encode(k)) == k && Encode(k) % 0x8000 != 0
  {
  }

  lemma DecodedScan(c: Word)
    requires c % 0x8000 != 0
    ensures 1 <= Decode(c) % 0x1_0000 < 0x8000
  {
  }

  /** A snapshot of held keys keeps exactly those keys held if and only if each scan code fits the
      fifteen bits it is given and is not zero; any other key it would release. */
  lemma SnapshotIsExact(keys: set<Key>)
    requires forall k :: k in keys ==> NormalKey(k)
    ensures keys * Decoded(Codes(keys)) == keys <==> forall k :: k in keys ==> 1 <= k % 0x1_0000 < 0x8000
  {
    forall k | k in keys && 1 <= k % 0x1_0000 < 0x8000 ensures k in Decoded(Codes(keys)) {
      CodeOfKey(k);
      assert Encode(k) in Codes(keys);
    }
    forall k | k in Decoded(Codes(keys)) ensures 1 <= k % 0x1_0000 < 0x8000 {
      var c :| c in Codes(keys) && c % 0x8000 != 0 && Decode(c) == k;
      DecodedScan(c);
    }
  }

  lemma ProperKeysKept(h: Host, events: seq<Event>)
    requires ProperKeys(h.keys) && AllValid(events)
    ensures ProperKeys(FeelAll(h, events).keys)
    decreases |events|
  {
    if events != [] {
      assert ValidEvent(events[0]);
      assert ProperKeys(Feel(h, events[0]).keys);
      ProperKeysKept(Feel(h, events[0]), events[1..]);
    }
  }

  /** A Host that holds proper keys and gets a snapshot of a part of what it holds: if the snapshot
      is lost nothing changes, otherwise it holds exactly that part. */
  lemma SnapshotLands(h: Host, sequence: nat, geometry: nat, keys: set<Key>, buttons: set<Button>)
    requires ProperKeys(h.keys) && keys <= h.keys && buttons <= h.buttons
    ensures var m := StateSync(sequence, geometry, Codes(keys), buttons);
            var h' := Receive(h, m);
            && h'.pointer == h.pointer
            && (ValidMessage(m) ==> h'.keys == keys && h'.buttons == buttons)
            && (!ValidMessage(m) ==> h' == h)
  {
    forall k | k in keys ensures k in Decoded(Codes(keys)) {
      CodeOfKey(k);
      assert Encode(k) in Codes(keys);
    }
    forall k | k in h.keys && k in Decoded(Codes(keys)) ensures k in keys {
      var c :| c in Codes(keys) && c % 0x8000 != 0 && Decode(c) == k;
      var k' :| k' in keys && Encode(k') == c;
      CodeOfKey(k');
    }
  }
}
