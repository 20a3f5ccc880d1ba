/** What `write_to_string` and `read_from_string` promise, one direction at
    a time: the layout of the text written, the prefix check, the
    tolerance of the reader, the keys it insists on, and that whatever it
    reads can be written again.  The round trip is in
    `ResourceRecordRoundTrip`. */
module ResourceRecordProofs {
  import opened Wrappers
  import opened Text
  import opened Dicts
  import opened Mounts
  import opened ResourceRecord
  import opened Seqs

  // ---------------------------------------------------------------- layout

  /** One `_SHARES` item per slot of a device. */
  function SlotEntries(known: KnownSlotTypes, c: Codecs, slots: SlotAllocs): (es: Dict<string>)
    ensures |es| == |slots|
  {
    seq(|slots|, j requires 0 <= j < |slots| =>
      (ShareKey(slots[j].0), ShareValue(known, c, slots[j].0, slots[j].1)))
  }

  /** The `_SHARES` items of every device, device by device. */
  function ShareEntries(known: KnownSlotTypes, c: Codecs, allocs: Allocations): Dict<string> {
    if |allocs| == 0 then []
    else ShareEntries(known, c, allocs[..|allocs| - 1]) + SlotEntries(known, c, allocs[|allocs| - 1].1)
  }

  /** Every slot carries its device name as a prefix. */
  predicate AllFit(allocs: Allocations) {
    forall i, j :: 0 <= i < |allocs| && 0 <= j < |allocs[i].1| ==> SlotNameFits(allocs[i].0, allocs[i].1[j].0)
  }

  /** `e` is the error for slot `j` of the device, the first that fails the
      prefix check. */
  predicate MisfitAt(device: string, slots: SlotAllocs, j: int, e: WriteError) {
    && 0 <= j < |slots|
    && e == PrefixMismatch(device, slots[j].0)
    && !SlotNameFits(device, slots[j].0)
    && forall k :: 0 <= k < j ==> SlotNameFits(device, slots[k].0)
  }

  /** `e` is the error for the first slot, in iteration order, that fails
      the prefix check. */
  predicate FirstMisfit(allocs: Allocations, e: WriteError) {
    exists i, j :: 0 <= i < |allocs| && 0 <= j < |allocs[i].1| && MisfitAt(allocs[i].0, allocs[i].1, j, e)
      && forall k, l :: 0 <= k < i && 0 <= l < |allocs[k].1| ==> SlotNameFits(allocs[k].0, allocs[k].1[l].0)
  }

  lemma EntryLinesAppend(a: Dict<string>, b: Dict<string>)
    ensures EntryLines(a + b) == EntryLines(a) + EntryLines(b)
  {
  }

  /** One device's lines: all `_SHARES` lines when every slot fits, else
      the error of the first slot that does not. */
  lemma {:induction false} SlotLinesFit(known: KnownSlotTypes, c: Codecs, device: string, slots: SlotAllocs)
    ensures SlotLines(known, c, device, slots).Ok?
        <==> forall j :: 0 <= j < |slots| ==> SlotNameFits(device, slots[j].0)
    ensures SlotLines(known, c, device, slots).Ok? ==>
      SlotLines(known, c, device, slots).value == EntryLines(SlotEntries(known, c, slots))
    ensures SlotLines(known, c, device, slots).Err? ==>
      exists j :: MisfitAt(device, slots, j, SlotLines(known, c, device, slots).error)
  {
    if |slots| > 0 {
      var n := |slots| - 1;
      var init := slots[..n];
      SlotLinesFit(known, c, device, init);
      assert forall j :: 0 <= j < n ==> init[j] == slots[j];
      var res := SlotLines(known, c, device, slots);
      if SlotLines(known, c, device, init).Err? {
        var j :| MisfitAt(device, init, j, SlotLines(known, c, device, init).error);
        assert MisfitAt(device, slots, j, res.error);
      } else if !SlotNameFits(device, slots[n].0) {
        assert MisfitAt(device, slots, n, res.error);
      } else {
        assert SlotEntries(known, c, slots) == SlotEntries(known, c, init) + [SlotEntries(known, c, slots)[n]];
        EntryLinesAppend(SlotEntries(known, c, init), [SlotEntries(known, c, slots)[n]]);
      }
    }
  }

  lemma {:induction false} AllocationLinesFit(known: KnownSlotTypes, c: Codecs, allocs: Allocations)
    ensures AllocationLines(known, c, allocs).Ok? <==> AllFit(allocs)
    ensures AllocationLines(known, c, allocs).Ok? ==>
      AllocationLines(known, c, allocs).value == EntryLines(ShareEntries(known, c, allocs))
    ensures AllocationLines(known, c, allocs).Err? ==> FirstMisfit(allocs, AllocationLines(known, c, allocs).error)
  {
    if |allocs| > 0 {
      var n := |allocs| - 1;
      var init := allocs[..n];
      AllocationLinesFit(known, c, init);
      SlotLinesFit(known, c, allocs[n].0, allocs[n].1);
      assert forall i :: 0 <= i < n ==> init[i] == allocs[i];
      var res := AllocationLines(known, c, allocs);
      if AllocationLines(known, c, init).Err? {
        var i, j :| 0 <= i < |init| && 0 <= j < |init[i].1| && MisfitAt(init[i].0, init[i].1, j, AllocationLines(known, c, init).error)
          && forall k, l :: 0 <= k < i && 0 <= l < |init[k].1| ==> SlotNameFits(init[k].0, init[k].1[l].0);
        assert MisfitAt(allocs[i].0, allocs[i].1, j, res.error);
      } else if SlotLines(known, c, allocs[n].0, allocs[n].1).Err? {
        var j :| MisfitAt(allocs[n].0, allocs[n].1, j, res.error);
        assert 0 <= n < |allocs| && MisfitAt(allocs[n].0, allocs[n].1, j, res.error);
      } else {
        EntryLinesAppend(ShareEntries(known, c, init), SlotEntries(known, c, allocs[n].1));
      }
    }
  }

  /** `write_to_string` fails exactly when some slot does not carry its
      device name as a prefix, and then with the first such slot;
      otherwise the text is the four fixed lines and one `_SHARES` line per
      slot, device by device, each `KEY=VALUE` and newline-terminated. */
  lemma SerializeLayout(known: KnownSlotTypes, c: Codecs, r: KernelResourceSpec)
    ensures Serialize(known, c, r).Ok? <==> AllFit(r.allocations)
    ensures AllFit(r.allocations) ==>
      Serialize(known, c, r) == Ok(Unlines(EntryLines(HeaderEntries(c, r) + ShareEntries(known, c, r.allocations))))
    ensures Serialize(known, c, r).Err? ==> FirstMisfit(r.allocations, Serialize(known, c, r).error)
  {
    AllocationLinesFit(known, c, r.allocations);
    EntryLinesAppend(HeaderEntries(c, r), ShareEntries(known, c, r.allocations));
  }

  // ---------------------------------------------------------------- reading

  /** The key a line with `=` sets. */
  function LineKey(line: string): string {
    Partition(Strip(line), '=').0
  }

  /** The value a line with `=` sets. */
  function LineVal(line: string): string {
    Partition(Strip(line), '=').1
  }

  /** A line without `=` is ignored wherever it stands. */
  lemma {:induction false} KvPairsIgnoresPlainLine(a: seq<string>, line: string, b: seq<string>)
    requires '=' !in line
    ensures KvPairs(a + [line] + b) == KvPairs(a + b)
  {
    if |b| == 0 {
      AppendNothing(a + [line], b);
      AppendNothing(a, b);
      SnocPrefix(a, [line]);
    } else {
      var m := |b| - 1;
      KvPairsIgnoresPlainLine(a, line, b[..m]);
      SnocPrefix(a + [line], b);
      SnocPrefix(a, b);
    }
  }

  /** A key is read exactly when some line with `=` sets it. */
  lemma {:induction false} KvPairsKeys(lines: seq<string>, key: string)
    ensures key in Keys(KvPairs(lines)) <==>
      exists i :: 0 <= i < |lines| && '=' in lines[i] && LineKey(lines[i]) == key
  {
    if |lines| > 0 {
      var n := |lines| - 1;
      var init := lines[..n];
      KvPairsKeys(init, key);
      assert forall i :: 0 <= i < n ==> init[i] == lines[i];
      var l := lines[n];
      if '=' in l {
        GetOfSet(KvPairs(init), LineKey(l), LineVal(l), key);
      }
    }
  }

  /** A later line with the same key overwrites an earlier one: the key
      reads the value of the last line that sets it. */
  lemma {:induction false} KvPairsLastWins(lines: seq<string>, i: nat)
    requires i < |lines| && '=' in lines[i]
    requires forall j :: i < j < |lines| && '=' in lines[j] ==> LineKey(lines[j]) != LineKey(lines[i])
    ensures Get(KvPairs(lines), LineKey(lines[i])) == Some(LineVal(lines[i]))
  {
    var n := |lines| - 1;
    var key := LineKey(lines[i]);
    var l := lines[n];
    var init := lines[..n];
    assert lines == init + [l];
    if i < n {
      assert init[i] == lines[i];
      assert forall j :: i < j < n ==> init[j] == lines[j];
      KvPairsLastWins(init, i);
      if '=' in l {
        KvPairsSnocSet(init, l);
        GetOfSet(KvPairs(init), LineKey(l), LineVal(l), key);
      } else {
        KvPairsSnocPlain(init, l);
      }
    } else {
      KvPairsSnocSet(init, l);
      GetOfSet(KvPairs(init), key, LineVal(l), key);
    }
  }

  /** A line with `=` sets its key to its value. */
  lemma KvPairsSnocSet(init: seq<string>, l: string)
    requires '=' in l
    ensures KvPairs(init + [l]) == Set(KvPairs(init), LineKey(l), LineVal(l))
  {
    assert (init + [l])[..|init|] == init;
  }

  /** A line without `=` is skipped. */
  lemma KvPairsSnocPlain(init: seq<string>, l: string)
    requires '=' !in l
    ensures KvPairs(init + [l]) == KvPairs(init)
  {
    assert (init + [l])[..|init|] == init;
  }

  /** Entries a `_SHARES` value skips without failing: no device id, no
      amount, or an amount whose parser raises KeyError. */
  predicate EntryDropped(known: KnownSlotTypes, c: Codecs, slot: string, entry: string) {
    var devId := Partition(entry, ':').0;
    var raw := Partition(entry, ':').1;
    devId == "" || raw == "" || ParseAmount(known, c, slot, raw) == RaisedKeyError
  }

  /** Reading entries `a + b` is reading `a`, then `b` from where `a` left off. */
  lemma {:induction false} EntriesFoldAppend(known: KnownSlotTypes, c: Codecs, slot: string, acc: PerDeviceAlloc,
                                              a: seq<string>, b: seq<string>)
    ensures EntriesFold(known, c, slot, acc, a + b) ==
      match EntriesFold(known, c, slot, acc, a)
      case Ok(per) => EntriesFold(known, c, slot, per, b)
      case Err(e) => Err(e)
  {
    if |b| == 0 {
      AppendNothing(a, b);
    } else {
      EntriesFoldAppend(known, c, slot, acc, a, b[..|b| - 1]);
      SnocPrefix(a, b);
    }
  }

  lemma EntriesFoldOne(known: KnownSlotTypes, c: Codecs, slot: string, acc: PerDeviceAlloc, entry: string)
    ensures EntriesFold(known, c, slot, acc, [entry]) == EntryStep(known, c, slot, acc, entry)
  {
    assert [entry][..0] == [];
  }

  /** A skipped entry leaves the other entries of its slot as they would be
      without it. */
  lemma EntriesFoldSkips(known: KnownSlotTypes, c: Codecs, slot: string, acc: PerDeviceAlloc,
                         a: seq<string>, entry: string, b: seq<string>)
    requires EntryDropped(known, c, slot, entry)
    ensures EntriesFold(known, c, slot, acc, a + [entry] + b) == EntriesFold(known, c, slot, acc, a + b)
  {
    EntriesFoldAppend(known, c, slot, acc, a + [entry], b);
    EntriesFoldAppend(known, c, slot, acc, a, [entry]);
    EntriesFoldAppend(known, c, slot, acc, a, b);
    if EntriesFold(known, c, slot, acc, a).Ok? {
      EntriesFoldOne(known, c, slot, EntriesFold(known, c, slot, acc, a).value, entry);
    }
  }

  /** An amount that is neither a KeyError nor a value fails the whole
      read of its slot, wherever it stands among the entries. */
  lemma EntriesFoldFatal(known: KnownSlotTypes, c: Codecs, slot: string, acc: PerDeviceAlloc,
                         a: seq<string>, entry: string, b: seq<string>)
    requires EntriesFold(known, c, slot, acc, a).Ok?
    requires Partition(entry, ':').0 != "" && Partition(entry, ':').1 != ""
    requires ParseAmount(known, c, slot, Partition(entry, ':').1) == RaisedOther
    ensures EntriesFold(known, c, slot, acc, a + [entry] + b) == Err(MalformedAmount(slot, Partition(entry, ':').1))
  {
    EntriesFoldAppend(known, c, slot, acc, a + [entry], b);
    EntriesFoldAppend(known, c, slot, acc, a, [entry]);
    EntriesFoldOne(known, c, slot, EntriesFold(known, c, slot, acc, a).value, entry);
  }

  /** The keys `read_from_string` insists on, and where the fields of the
      record it builds come from; `CID` alone has a default. */
  lemma DeserializeFields(known: KnownSlotTypes, c: Codecs, text: string)
    ensures var kv := KvPairs(Split(text, '\n'));
      && (AllocFold(known, c, [], kv).Ok? && "MOUNTS" !in Keys(kv) ==>
            Deserialize(known, c, text) == Err(MissingKey("MOUNTS")))
      && (Deserialize(known, c, text).Ok? ==>
            var r := Deserialize(known, c, text).value;
            && "MOUNTS" in Keys(kv) && "SCRATCH_SIZE" in Keys(kv) && "SLOTS" in Keys(kv)
            && Ok(r.allocations) == AllocFold(known, c, [], kv)
            && Ok(r.mounts) == ParseMounts(Split(GetOr(kv, "MOUNTS", ""), ','))
            && r.containerId == (if "CID" in Keys(kv) then GetOr(kv, "CID", "") else "unknown")
            && Some(r.scratchDiskSize) == c.parseScratch(GetOr(kv, "SCRATCH_SIZE", ""))
            && Some(r.slots) == c.loadSlots(GetOr(kv, "SLOTS", "")))
  {
  }

  // ---------------------------------------------------------------- read, then write

  /** Every slot read back is filed under the device its name starts with. */
  predicate Filed(allocs: Allocations) {
    forall i, j :: 0 <= i < |allocs| && 0 <= j < |allocs[i].1| ==> DeviceOf(allocs[i].1[j].0) == allocs[i].0
  }

  /** `slot_name.split('.')[0]` is a prefix the writer accepts. */
  lemma DeviceOfFits(slot: string)
    ensures SlotNameFits(DeviceOf(slot), slot)
  {
    var p := Partition(slot, '.');
    if '.' in slot {
      FirstPieceOf(p.0, '.', p.1);
      assert slot[..|p.0| + 1] == p.0 + ".";
    } else {
      SplitNoSep(slot, '.');
    }
  }

  lemma FiledFits(allocs: Allocations)
    requires Filed(allocs)
    ensures AllFit(allocs)
  {
    forall i, j | 0 <= i < |allocs| && 0 <= j < |allocs[i].1|
      ensures SlotNameFits(allocs[i].0, allocs[i].1[j].0)
    {
      DeviceOfFits(allocs[i].1[j].0);
    }
  }

  /** The items of `d[k] = v` are those of `d` and `(k, v)`. */
  lemma SetItems<V>(d: Dict<V>, k: string, v: V)
    ensures forall i :: 0 <= i < |Set(d, k, v)| ==> Set(d, k, v)[i] == (k, v) || Set(d, k, v)[i] in d
  {
  }

  lemma {:induction false} GetIsItem<V>(d: Dict<V>, k: string)
    requires Get(d, k).Some?
    ensures (k, Get(d, k).value) in d
  {
    if d[0].0 != k {
      GetIsItem(d[1..], k);
    }
  }

  lemma SetAllocationFiled(allocs: Allocations, slot: string, per: PerDeviceAlloc)
    requires Filed(allocs)
    ensures Filed(SetAllocation(allocs, DeviceOf(slot), slot, per))
  {
    var d := DeviceOf(slot);
    var inner := GetOr(allocs, d, []);
    var inner2 := Set(inner, slot, per);
    var res := Set(allocs, d, inner2);
    SetItems(inner, slot, per);
    SetItems(allocs, d, inner2);
    assert forall j :: 0 <= j < |inner| ==> DeviceOf(inner[j].0) == d by {
      if Get(allocs, d).Some? {
        GetIsItem(allocs, d);
      }
    }
    forall i, j | 0 <= i < |res| && 0 <= j < |res[i].1|
      ensures DeviceOf(res[i].1[j].0) == res[i].0
    {
      if res[i] != (d, inner2) {
        var i' :| 0 <= i' < |allocs| && allocs[i'] == res[i];
      }
    }
  }

  lemma {:induction false} AllocFoldFiled(known: KnownSlotTypes, c: Codecs, items: Dict<string>)
    requires AllocFold(known, c, [], items).Ok?
    ensures Filed(AllocFold(known, c, [], items).value)
  {
    if |items| > 0 {
      var n := |items| - 1;
      AllocFoldFiled(known, c, items[..n]);
      var key := items[n].0;
      var val := items[n].1;
      if IsShareKey(key) {
        var per := ParseShares(known, c, ShareSlot(key), val);
        SetAllocationFiled(AllocFold(known, c, [], items[..n]).value, ShareSlot(key), per.value);
      }
    }
  }

  /** Whatever `read_from_string` returns passes the prefix check of
      `write_to_string`. */
  lemma WriteAfterRead(known: KnownSlotTypes, c: Codecs, text: string)
    requires Deserialize(known, c, text).Ok?
    ensures Serialize(known, c, Deserialize(known, c, text).value).Ok?
  {
    var kv := KvPairs(Split(text, '\n'));
    AllocFoldFiled(known, c, kv);
    FiledFits(Deserialize(known, c, text).value.allocations);
    SerializeLayout(known, c, Deserialize(known, c, text).value);
  }
}
