/** The loops of `KernelResourceSpec.write_to_string` and
    `KernelResourceSpec.read_from_string`, each proved to compute exactly
    the function of `ResourceRecord` that specifies it. */
module ResourceRecordCodec {
  import opened Wrappers
  import opened Text
  import opened Dicts
  import opened Mounts
  import opened ResourceRecord
  import opened Seqs

  /** `write_to_string`: the four fixed lines, then one `_SHARES` line per
      slot of every device, or the ValueError of the prefix check. */
  method WriteToString(known: KnownSlotTypes, c: Codecs, r: KernelResourceSpec)
    returns (out: Result<string, WriteError>)
    ensures out == Serialize(known, c, r)
  {
    var mountsStr := MountsText(r.mounts);
    var slotsStr := c.dumpSlots(r.slots);

    var resourceStr := WriteHeader(c, r, mountsStr, slotsStr);
    ghost var header := HeaderLines(c, r);

    var allocs := r.allocations;
    ghost var done := HeaderLines(c, r);
    ghost var written: seq<string> := [];
    var i := 0;
    while i < |allocs|
      invariant 0 <= i <= |allocs|
      invariant AllocationLines(known, c, allocs[..i]) == Ok(written)
      invariant done == HeaderLines(c, r) + written
      invariant resourceStr == Unlines(done)
    {
      var next := WriteDeviceSlots(known, c, allocs[i].0, allocs[i].1, resourceStr, done);
      if next.Err? {
        AllocErrorAt(known, c, allocs, i, next.error);
        SerializeError(known, c, r, next.error);
        return Err(next.error);
      }
      ghost var lines := SlotLines(known, c, allocs[i].0, allocs[i].1).value;
      AllocationLinesSnoc(known, c, allocs, i, written, lines);
      resourceStr := next.value;
      AppendAssoc(HeaderLines(c, r), written, lines);
      written := written + lines;
      done := done + lines;
      i := i + 1;
    }
    TakeAll(allocs);
    out := Ok(resourceStr);
  }

  /** The middle loop of `write_to_string`: appends the lines of one
      device's slots to `resourceStr`, or stops at the first slot that
      fails the prefix check. */
  method WriteDeviceSlots(known: KnownSlotTypes, c: Codecs, deviceName: string, slots: SlotAllocs,
                          resourceStr: string, ghost done: seq<string>)
    returns (out: Result<string, WriteError>)
    requires resourceStr == Unlines(done)
    ensures SlotLines(known, c, deviceName, slots).Err? ==> out == Err(SlotLines(known, c, deviceName, slots).error)
    ensures SlotLines(known, c, deviceName, slots).Ok? ==> out == Ok(Unlines(done + SlotLines(known, c, deviceName, slots).value))
  {
    var text := resourceStr;
    ghost var slotWritten: seq<string> := [];
    AppendNothing(done, []);
    var j := 0;
    while j < |slots|
      invariant 0 <= j <= |slots|
      invariant SlotLines(known, c, deviceName, slots[..j]) == Ok(slotWritten)
      invariant text == Unlines(done + slotWritten)
    {
      var slotName := slots[j].0;
      var perDeviceAlloc := slots[j].1;
      if !(StartsWith(slotName, deviceName + ".") || slotName == deviceName) {
        SlotErrorAt(known, c, deviceName, slots, j);
        return Err(PrefixMismatch(deviceName, slotName));
      }
      var allocStr := FormatShares(known, c, slotName, perDeviceAlloc);
      ShareLineWritten(known, c, slotName, perDeviceAlloc);
      text := text + (Upper(slotName) + "_SHARES=" + allocStr + "\n");
      WrittenSnoc(done, slotWritten, Upper(slotName) + "_SHARES=" + allocStr);
      SlotLinesSnoc(known, c, deviceName, slots, j, slotWritten);
      slotWritten := slotWritten + [Upper(slotName) + "_SHARES=" + allocStr];
      j := j + 1;
    }
    TakeAll(slots);
    out := Ok(text);
  }

  /** `read_from_string`: the key-value pass, the allocation pass, then the
      fixed keys; each failure is the exception the source raises first. */
  method ReadFromString(known: KnownSlotTypes, c: Codecs, text: string)
    returns (out: Result<KernelResourceSpec, ReadError>)
    ensures out == Deserialize(known, c, text)
  {
    var lines := Split(text, '\n');
    var kvpairs: Dict<string> := [];
    var i := 0;
    while i < |lines|
      invariant 0 <= i <= |lines|
      invariant kvpairs == KvPairs(lines[..i])
    {
      var line := lines[i];
      KvPairsSnoc(lines, i);
      if '=' in line {
        var kvPair := Partition(Strip(line), '=');
        kvpairs := Set(kvpairs, kvPair.0, kvPair.1);
      }
      i := i + 1;
    }
    TakeAll(lines);

    var allocations: Allocations := [];
    var n := 0;
    while n < |kvpairs|
      invariant 0 <= n <= |kvpairs|
      invariant AllocFold(known, c, [], kvpairs[..n]) == Ok(allocations)
    {
      var key := kvpairs[n].0;
      var val := kvpairs[n].1;
      AllocFoldSnoc(known, c, kvpairs, n, allocations);
      if EndsWith(key, "_SHARES") {
        var slotName := Lower(key[..|key| - 7]);
        var deviceName := Split(slotName, '.')[0];
        var parsed := ReadShares(known, c, slotName, val);
        if parsed.Err? {
          AllocErrorStep(known, c, kvpairs, n, parsed.error);
          return Err(parsed.error);
        }
        var perDeviceAlloc := parsed.value;
        allocations := SetAllocation(allocations, deviceName, slotName, perDeviceAlloc);
      }
      n := n + 1;
    }
    TakeAll(kvpairs);
    out := AssembleRecord(c, kvpairs, allocations);
  }

  /** The end of `read_from_string`: the mounts and the constructor call. */
  method AssembleRecord(c: Codecs, kvpairs: Dict<string>, allocations: Allocations)
    returns (out: Result<KernelResourceSpec, ReadError>)
    ensures out == Assemble(c, kvpairs, allocations)
  {

    if "MOUNTS" !in Keys(kvpairs) {
      return Err(MissingKey("MOUNTS"));
    }
    var mounts := ParseMounts(Split(GetOr(kvpairs, "MOUNTS", ""), ','));
    if mounts.Err? {
      return Err(mounts.error);
    }
    var containerId := GetOr(kvpairs, "CID", "unknown");
    if "SCRATCH_SIZE" !in Keys(kvpairs) {
      return Err(MissingKey("SCRATCH_SIZE"));
    }
    var scratchText := GetOr(kvpairs, "SCRATCH_SIZE", "");
    var scratch := c.parseScratch(scratchText);
    if scratch.None? {
      return Err(BadScratchSize(scratchText));
    }
    if "SLOTS" !in Keys(kvpairs) {
      return Err(MissingKey("SLOTS"));
    }
    var slotsText := GetOr(kvpairs, "SLOTS", "");
    var slots := c.loadSlots(slotsText);
    if slots.None? {
      return Err(BadSlots(slotsText));
    }
    out := Ok(KernelResourceSpec(containerId, slots.value, allocations, scratch.value, mounts.value));
  }

  /** The four fixed lines of `write_to_string`. */
  method WriteHeader(c: Codecs, r: KernelResourceSpec, mountsStr: string, slotsStr: string)
    returns (resourceStr: string)
    requires mountsStr == MountsText(r.mounts) && slotsStr == c.dumpSlots(r.slots)
    ensures resourceStr == Unlines(HeaderLines(c, r))
  {
    resourceStr := "";
    ghost var header: seq<string> := [];
    resourceStr := resourceStr + ("CID=" + r.containerId + "\n");
    header := AppendLine(header, "CID=" + r.containerId);
    resourceStr := resourceStr + ("SCRATCH_SIZE=" + c.formatScratch(r.scratchDiskSize) + "\n");
    header := AppendLine(header, "SCRATCH_SIZE=" + c.formatScratch(r.scratchDiskSize));
    resourceStr := resourceStr + ("MOUNTS=" + mountsStr + "\n");
    header := AppendLine(header, "MOUNTS=" + mountsStr);
    resourceStr := resourceStr + ("SLOTS=" + slotsStr + "\n");
    header := AppendLine(header, "SLOTS=" + slotsStr);
    assert header == HeaderLines(c, r) by {
      assert "CID" + "=" == "CID=";
      assert "SCRATCH_SIZE" + "=" == "SCRATCH_SIZE=";
      assert "MOUNTS" + "=" == "MOUNTS=";
      assert "SLOTS" + "=" == "SLOTS=";
    }
  }

  /** The inner loop of `write_to_string`: the comma-joined
      `dev_id:amount` pieces of one slot. */
  method FormatShares(known: KnownSlotTypes, c: Codecs, slotName: string, perDeviceAlloc: PerDeviceAlloc)
    returns (allocStr: string)
    ensures allocStr == ShareValue(known, c, slotName, perDeviceAlloc)
  {
    var pieces: seq<string> := [];
    var k := 0;
    while k < |perDeviceAlloc|
      invariant 0 <= k <= |perDeviceAlloc|
      invariant pieces == Pieces(known, c, slotName, perDeviceAlloc[..k])
    {
      var devId := perDeviceAlloc[k].0;
      var alloc := perDeviceAlloc[k].1;
      PiecesSnoc(known, c, slotName, perDeviceAlloc, k);
      if SlotTypeOf(known, slotName) == Bytes {
        pieces := pieces + [devId + ":" + c.formatBytes(alloc)];
      } else {
        pieces := pieces + [devId + ":" + NatToDecimal(alloc)];
      }
      k := k + 1;
    }
    TakeAll(perDeviceAlloc);
    allocStr := Join(',', pieces);
  }

  /** The inner loop of `read_from_string`: the per-device allocation of
      one `_SHARES` value. */
  method ReadShares(known: KnownSlotTypes, c: Codecs, slotName: string, val: string)
    returns (out: Result<PerDeviceAlloc, ReadError>)
    ensures out == ParseShares(known, c, slotName, val)
  {
    var perDeviceAlloc: PerDeviceAlloc := [];
    var entries := Split(val, ',');
    var e := 0;
    while e < |entries|
      invariant 0 <= e <= |entries|
      invariant EntriesFold(known, c, slotName, [], entries[..e]) == Ok(perDeviceAlloc)
    {
      var parts := Partition(entries[e], ':');
      var rawDevId := parts.0;
      var rawAlloc := parts.1;
      EntriesFoldSnoc(known, c, slotName, entries, e, perDeviceAlloc);
      if rawDevId != "" && rawAlloc != "" {
        var parsed: AmountParse;
        if SlotTypeOf(known, slotName) == Bytes {
          parsed := c.parseBytes(rawAlloc);
        } else {
          parsed := match DecimalToNat(rawAlloc)
                    case Some(a) => Parsed(a)
                    case None => RaisedOther;
        }
        match parsed
        case Parsed(a) =>
          perDeviceAlloc := Set(perDeviceAlloc, rawDevId, a);
        case RaisedKeyError =>
        case RaisedOther =>
          EntriesErrorPersists(known, c, slotName, entries, e + 1, MalformedAmount(slotName, rawAlloc));
          return Err(MalformedAmount(slotName, rawAlloc));
      }
      e := e + 1;
    }
    TakeAll(entries);
    out := Ok(perDeviceAlloc);
  }

  // Helpers: appending a written line, and an error that stops a fold.

  function AppendLine(lines: seq<string>, line: string): (r: seq<string>)
    ensures r == lines + [line]
    ensures Unlines(r) == Unlines(lines) + (line + "\n")
  {
    UnlinesSnoc(lines, line);
    lines + [line]
  }

  lemma UnlinesSnoc(lines: seq<string>, line: string)
    ensures Unlines(lines + [line]) == Unlines(lines) + (line + "\n")
  {
    assert (lines + [line])[..|lines|] == lines;
  }

  lemma KvPairsSnoc(lines: seq<string>, i: nat)
    requires i < |lines|
    ensures KvPairs(lines[..i + 1]) == KvStep(KvPairs(lines[..i]), lines[i])
  {
    assert lines[..i + 1][..i] == lines[..i];
  }

  lemma AllocFoldSnoc(known: KnownSlotTypes, c: Codecs, items: Dict<string>, n: nat, acc: Allocations)
    requires n < |items|
    requires AllocFold(known, c, [], items[..n]) == Ok(acc)
    ensures AllocFold(known, c, [], items[..n + 1]) == AllocStep(known, c, acc, items[n])
  {
    assert items[..n + 1][..n] == items[..n];
  }

  lemma PiecesSnoc(known: KnownSlotTypes, c: Codecs, slot: string, per: PerDeviceAlloc, k: nat)
    requires k < |per|
    ensures Pieces(known, c, slot, per[..k + 1]) == Pieces(known, c, slot, per[..k]) + [Piece(known, c, slot, per[k])]
  {
  }

  /** The line the loop writes is the slot's allocation line. */
  lemma ShareLineWritten(known: KnownSlotTypes, c: Codecs, slot: string, per: PerDeviceAlloc)
    ensures Upper(slot) + "_SHARES=" + ShareValue(known, c, slot, per) == ShareLine(known, c, slot, per)
  {
    assert "_SHARES" + "=" == "_SHARES=";
  }

  lemma WrittenSnoc(done: seq<string>, lines: seq<string>, line: string)
    ensures Unlines(done + (lines + [line])) == Unlines(done + lines) + (line + "\n")
  {
    assert done + (lines + [line]) == (done + lines) + [line];
    UnlinesSnoc(done + lines, line);
  }

  lemma SlotLinesSnoc(known: KnownSlotTypes, c: Codecs, device: string, slots: SlotAllocs, j: nat, before: seq<string>)
    requires j < |slots|
    requires SlotLines(known, c, device, slots[..j]) == Ok(before)
    requires SlotNameFits(device, slots[j].0)
    ensures SlotLines(known, c, device, slots[..j + 1]) == Ok(before + [ShareLine(known, c, slots[j].0, slots[j].1)])
  {
    assert slots[..j + 1][..j] == slots[..j];
  }

  lemma AllocationLinesSnoc(known: KnownSlotTypes, c: Codecs, allocs: Allocations, i: nat, before: seq<string>, lines: seq<string>)
    requires i < |allocs|
    requires AllocationLines(known, c, allocs[..i]) == Ok(before)
    requires SlotLines(known, c, allocs[i].0, allocs[i].1) == Ok(lines)
    ensures AllocationLines(known, c, allocs[..i + 1]) == Ok(before + lines)
  {
    assert allocs[..i + 1][..i] == allocs[..i];
  }

  /** The first slot that fails the prefix check decides the result. */
  lemma SlotErrorAt(known: KnownSlotTypes, c: Codecs, device: string, slots: SlotAllocs, j: nat)
    requires j < |slots|
    requires SlotLines(known, c, device, slots[..j]).Ok?
    requires !SlotNameFits(device, slots[j].0)
    ensures SlotLines(known, c, device, slots) == Err(PrefixMismatch(device, slots[j].0))
  {
    assert slots[..j + 1][..j] == slots[..j];
    SlotErrorPersists(known, c, device, slots, j + 1, PrefixMismatch(device, slots[j].0));
  }

  /** So does the first device whose slots fail it. */
  lemma AllocErrorAt(known: KnownSlotTypes, c: Codecs, allocs: Allocations, i: nat, e: WriteError)
    requires i < |allocs|
    requires AllocationLines(known, c, allocs[..i]).Ok?
    requires SlotLines(known, c, allocs[i].0, allocs[i].1) == Err(e)
    ensures AllocationLines(known, c, allocs) == Err(e)
  {
    assert allocs[..i + 1][..i] == allocs[..i];
    AllocErrorPersists(known, c, allocs, i + 1, e);
  }

  lemma SerializeError(known: KnownSlotTypes, c: Codecs, r: KernelResourceSpec, e: WriteError)
    requires AllocationLines(known, c, r.allocations) == Err(e)
    ensures Serialize(known, c, r) == Err(e)
  {
  }

  lemma EntriesFoldSnoc(known: KnownSlotTypes, c: Codecs, slot: string, entries: seq<string>, e: nat, per: PerDeviceAlloc)
    requires e < |entries|
    requires EntriesFold(known, c, slot, [], entries[..e]) == Ok(per)
    ensures EntriesFold(known, c, slot, [], entries[..e + 1]) == EntryStep(known, c, slot, per, entries[e])
  {
    assert entries[..e + 1][..e] == entries[..e];
  }

  lemma SlotErrorPersists(known: KnownSlotTypes, c: Codecs, device: string, slots: SlotAllocs, k: nat, e: WriteError)
    requires k <= |slots|
    requires SlotLines(known, c, device, slots[..k]) == Err(e)
    ensures SlotLines(known, c, device, slots) == Err(e)
    decreases |slots| - k
  {
    if k < |slots| {
      assert slots[..k + 1][..k] == slots[..k];
      SlotErrorPersists(known, c, device, slots, k + 1, e);
    } else {
      assert slots[..k] == slots;
    }
  }

  lemma AllocErrorPersists(known: KnownSlotTypes, c: Codecs, allocs: Allocations, k: nat, e: WriteError)
    requires k <= |allocs|
    requires AllocationLines(known, c, allocs[..k]) == Err(e)
    ensures AllocationLines(known, c, allocs) == Err(e)
    decreases |allocs| - k
  {
    if k < |allocs| {
      assert allocs[..k + 1][..k] == allocs[..k];
      AllocErrorPersists(known, c, allocs, k + 1, e);
    } else {
      assert allocs[..k] == allocs;
    }
  }

  lemma EntriesErrorPersists(known: KnownSlotTypes, c: Codecs, slot: string, entries: seq<string>, k: nat, e: ReadError)
    requires k <= |entries|
    requires EntriesFold(known, c, slot, [], entries[..k]) == Err(e)
    ensures EntriesFold(known, c, slot, [], entries) == Err(e)
    decreases |entries| - k
  {
    if k < |entries| {
      assert entries[..k + 1][..k] == entries[..k];
      EntriesErrorPersists(known, c, slot, entries, k + 1, e);
    } else {
      assert entries[..k] == entries;
    }
  }

  /** A `_SHARES` item whose value fails to parse ends the whole fold with
      that failure. */
  lemma AllocErrorStep(known: KnownSlotTypes, c: Codecs, items: Dict<string>, n: nat, e: ReadError)
    requires n < |items|
    requires AllocFold(known, c, [], items[..n]).Ok?
    requires IsShareKey(items[n].0)
    requires ParseShares(known, c, ShareSlot(items[n].0), items[n].1) == Err(e)
    ensures AllocFold(known, c, [], items) == Err(e)
  {
    assert items[..n + 1][..n] == items[..n];
    AllocFoldErrorPersists(known, c, items, n + 1, e);
  }

  lemma AllocFoldErrorPersists(known: KnownSlotTypes, c: Codecs, items: Dict<string>, k: nat, e: ReadError)
    requires k <= |items|
    requires AllocFold(known, c, [], items[..k]) == Err(e)
    ensures AllocFold(known, c, [], items) == Err(e)
    decreases |items| - k
  {
    if k < |items| {
      assert items[..k + 1][..k] == items[..k];
      AllocFoldErrorPersists(known, c, items, k + 1, e);
    } else {
      assert items[..k] == items;
    }
  }
}
