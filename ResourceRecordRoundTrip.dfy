/** `read_from_string(write_to_string(r))` gives `r` back.  The text format
    has no quoting, so this holds only for records whose values fit it: no
    newline anywhere, no `=` in a slot name, no `,` inside a mount or a
    device entry, no whitespace where `strip()` would remove it, dictionary
    keys that are distinct, and device names that are the prefix of their
    slots.  The formats defined elsewhere (`BinarySize`, `json`) are assumed
    to read back what they print, for the values in the record only.
    `RoundTripSafe` collects these conditions and `RoundTrip` is the
    theorem. */
module ResourceRecordRoundTrip {
  import opened Wrappers
  import opened Text
  import opened Dicts
  import opened Mounts
  import opened ResourceRecord
  import opened ResourceRecordProofs
  import opened Seqs

  // ---------------------------------------------------------------- conditions

  /** A value that can end a line: no newline, and no trailing whitespace
      for `strip()` to remove. */
  predicate LineValue(v: string) {
    '\n' !in v && (v == "" || !IsSpace(v[|v| - 1]))
  }

  /** A key that can start a line: no `=`, no newline, and no leading
      whitespace. */
  predicate LineKeyText(k: string) {
    '=' !in k && '\n' !in k && (k == "" || !IsSpace(k[0]))
  }

  predicate EntryReadable(e: (string, string)) {
    LineKeyText(e.0) && LineValue(e.1)
  }

  /** An amount that reads back: decimal digits always do; a byte amount
      needs its printed form to be a non-empty `,`-free line value that the
      parser reads as the same number. */
  predicate AmountWritable(known: KnownSlotTypes, c: Codecs, slot: string, amount: nat) {
    SlotTypeOf(known, slot) == Bytes ==>
      var t := c.formatBytes(amount);
      t != "" && ',' !in t && LineValue(t) && c.parseBytes(t) == Parsed(amount)
  }

  /** A device id that survives `dev_id:amount` inside a `,`-separated line. */
  predicate DeviceIdWritable(id: string) {
    id != "" && ':' !in id && ',' !in id && '\n' !in id
  }

  predicate PerDeviceWritable(known: KnownSlotTypes, c: Codecs, slot: string, per: PerDeviceAlloc) {
    && DistinctKeys(per)
    && forall i :: 0 <= i < |per| ==> DeviceIdWritable(per[i].0) && AmountWritable(known, c, slot, per[i].1)
  }

  /** A slot name whose `_SHARES` key reads back as itself. */
  predicate SlotWritable(slot: string) {
    NoUpper(slot) && '=' !in slot && '\n' !in slot && (slot == "" || !IsSpace(slot[0]))
  }

  /** A device whose slots read back under it: a name without `.`, at least
      one slot (a device without slots writes no line), and slots that
      carry the device name as their prefix. */
  predicate DeviceWritable(known: KnownSlotTypes, c: Codecs, device: string, slots: SlotAllocs) {
    && '.' !in device
    && |slots| > 0
    && DistinctKeys(slots)
    && forall j :: 0 <= j < |slots| ==>
         && SlotNameFits(device, slots[j].0)
         && SlotWritable(slots[j].0)
         && PerDeviceWritable(known, c, slots[j].0, slots[j].1)
  }

  predicate AllocationsWritable(known: KnownSlotTypes, c: Codecs, allocs: Allocations) {
    && DistinctKeys(allocs)
    && forall i :: 0 <= i < |allocs| ==> DeviceWritable(known, c, allocs[i].0, allocs[i].1)
  }

  /** A mount that reads back from the `,`-separated MOUNTS line. */
  predicate MountWritable(m: Mount) {
    && Encodable(m)
    && ',' !in SourceText(m.source) && ',' !in m.target
    && '\n' !in SourceText(m.source) && '\n' !in m.target
  }

  /** Everything the round trip needs of a record. */
  predicate RoundTripSafe(known: KnownSlotTypes, c: Codecs, r: KernelResourceSpec) {
    && LineValue(r.containerId)
    && LineValue(c.formatScratch(r.scratchDiskSize))
    && c.parseScratch(c.formatScratch(r.scratchDiskSize)) == Some(r.scratchDiskSize)
    && LineValue(c.dumpSlots(r.slots))
    && c.loadSlots(c.dumpSlots(r.slots)) == Some(r.slots)
    && (forall i :: 0 <= i < |r.mounts| ==> MountWritable(r.mounts[i]))
    && AllocationsWritable(known, c, r.allocations)
  }

  // ---------------------------------------------------------------- lines

  lemma {:induction false} UnlinesCons(l: string, ls: seq<string>)
    ensures Unlines([l] + ls) == l + "\n" + Unlines(ls)
  {
    if |ls| == 0 {
      assert [l] + ls == [l];
      assert [l][..0] == [];
    } else {
      var n := |ls| - 1;
      UnlinesCons(l, ls[..n]);
      assert ([l] + ls)[..|ls|] == [l] + ls[..n];
      assert ([l] + ls)[|ls|] == ls[n];
    }
  }

  /** Splitting the written text at newlines gives its lines back, and the
      empty piece after the final newline. */
  lemma {:induction false} SplitUnlines(ls: seq<string>)
    requires forall i :: 0 <= i < |ls| ==> '\n' !in ls[i]
    ensures Split(Unlines(ls), '\n') == ls + [""]
  {
    if |ls| > 0 {
      UnlinesCons(ls[0], ls[1..]);
      assert [ls[0]] + ls[1..] == ls;
      SplitUnlines(ls[1..]);
      assert "\n" == ['\n'];
      SplitConcat(ls[0], '\n', Unlines(ls[1..]));
    }
  }

  /** A `KEY=VALUE` line reads as its key and value. */
  lemma LineOfEntry(k: string, v: string)
    requires LineKeyText(k) && LineValue(v)
    ensures '=' in k + "=" + v && '\n' !in k + "=" + v
    ensures LineKey(k + "=" + v) == k && LineVal(k + "=" + v) == v
  {
    var l := k + "=" + v;
    assert l[|k|] == '=';
    assert l[0] == if k == "" then '=' else k[0];
    assert l[|l| - 1] == if v == "" then '=' else v[|v| - 1];
    StripOfStable(l);
    PartitionAt(k, '=', v);
  }

  /** Reading the lines of distinct readable items gives the items back,
      in order. */
  lemma {:induction false} KvPairsOfEntries(es: Dict<string>)
    requires DistinctKeys(es)
    requires forall i :: 0 <= i < |es| ==> EntryReadable(es[i])
    ensures KvPairs(EntryLines(es)) == es
  {
    if |es| > 0 {
      var n := |es| - 1;
      var init := es[..n];
      var e := es[n];
      LastKeyFresh(es);
      assert forall i :: 0 <= i < n ==> es[i] == init[i];
      KvPairsOfEntries(init);
      EntryLinesSnoc(init, e);
      InitLast(es);
      LineOfEntry(e.0, e.1);
      KvPairsSnocSet(EntryLines(init), e.0 + "=" + e.1);
    }
  }

  lemma EntryLinesSnoc(init: Dict<string>, e: (string, string))
    ensures EntryLines(init + [e]) == EntryLines(init) + [e.0 + "=" + e.1]
  {
  }

  lemma {:induction false} JoinLineValue(sep: char, parts: seq<string>)
    requires sep != '\n' && !IsSpace(sep)
    requires forall i :: 0 <= i < |parts| ==> LineValue(parts[i])
    ensures LineValue(Join(sep, parts))
  {
    if |parts| > 1 {
      var rest := Join(sep, parts[1..]);
      JoinLineValue(sep, parts[1..]);
      var j := parts[0] + [sep] + rest;
      assert j[|j| - 1] == if rest == "" then sep else rest[|rest| - 1];
    }
  }

  // ---------------------------------------------------------------- one slot

  lemma DigitsFit(t: string)
    requires |t| >= 1 && AllDigits(t)
    ensures ',' !in t && LineValue(t)
  {
    forall i | 0 <= i < |t|
      ensures t[i] != ',' && t[i] != '\n'
    {
      assert IsDigit(t[i]);
    }
    assert IsDigit(t[|t| - 1]);
  }

  /** One `dev_id:amount` piece reads back as its item. */
  lemma PieceReads(known: KnownSlotTypes, c: Codecs, slot: string, e: (string, nat))
    requires DeviceIdWritable(e.0) && AmountWritable(known, c, slot, e.1)
    ensures Partition(Piece(known, c, slot, e), ':') == (e.0, FormatAmount(known, c, slot, e.1))
    ensures FormatAmount(known, c, slot, e.1) != ""
    ensures ParseAmount(known, c, slot, FormatAmount(known, c, slot, e.1)) == Parsed(e.1)
    ensures ',' !in Piece(known, c, slot, e) && LineValue(Piece(known, c, slot, e))
  {
    var amount := FormatAmount(known, c, slot, e.1);
    if SlotTypeOf(known, slot) != Bytes {
      DecimalRoundTrip(e.1);
      DigitsFit(amount);
    }
    assert ":" == [':'];
    PartitionAt(e.0, ':', amount);
    var p := Piece(known, c, slot, e);
    assert p[|p| - 1] == amount[|amount| - 1];
  }

  lemma {:induction false} EntriesOfPieces(known: KnownSlotTypes, c: Codecs, slot: string, per: PerDeviceAlloc)
    requires PerDeviceWritable(known, c, slot, per)
    ensures EntriesFold(known, c, slot, [], Pieces(known, c, slot, per)) == Ok(per)
  {
    if |per| > 0 {
      var n := |per| - 1;
      var init := per[..n];
      var piece := Piece(known, c, slot, per[n]);
      LastKeyFresh(per);
      PerDeviceWritableInit(known, c, slot, per);
      EntriesOfPieces(known, c, slot, init);
      PiecesInit(known, c, slot, per);
      EntriesFoldAppend(known, c, slot, [], Pieces(known, c, slot, init), [piece]);
      EntriesFoldOne(known, c, slot, init, piece);
      EntryStepOfPiece(known, c, slot, init, per[n]);
      InitLast(per);
    }
  }

  lemma PerDeviceWritableInit(known: KnownSlotTypes, c: Codecs, slot: string, per: PerDeviceAlloc)
    requires PerDeviceWritable(known, c, slot, per) && |per| > 0
    ensures PerDeviceWritable(known, c, slot, per[..|per| - 1])
  {
    LastKeyFresh(per);
  }

  lemma PiecesInit(known: KnownSlotTypes, c: Codecs, slot: string, per: PerDeviceAlloc)
    requires |per| > 0
    ensures Pieces(known, c, slot, per)
         == Pieces(known, c, slot, per[..|per| - 1]) + [Piece(known, c, slot, per[|per| - 1])]
  {
  }

  /** Reading a piece for a new device id appends its item. */
  lemma EntryStepOfPiece(known: KnownSlotTypes, c: Codecs, slot: string, acc: PerDeviceAlloc, e: (string, nat))
    requires DeviceIdWritable(e.0) && AmountWritable(known, c, slot, e.1)
    requires e.0 !in Keys(acc)
    ensures EntryStep(known, c, slot, acc, Piece(known, c, slot, e)) == Ok(acc + [e])
  {
    PieceReads(known, c, slot, e);
  }

  /** A written `_SHARES` value is a line value and reads back as the
      per-device allocation it was written from. */
  lemma ParseSharesOfValue(known: KnownSlotTypes, c: Codecs, slot: string, per: PerDeviceAlloc)
    requires PerDeviceWritable(known, c, slot, per)
    ensures ParseShares(known, c, slot, ShareValue(known, c, slot, per)) == Ok(per)
    ensures LineValue(ShareValue(known, c, slot, per))
  {
    var ps := Pieces(known, c, slot, per);
    forall i | 0 <= i < |ps|
      ensures ',' !in ps[i] && LineValue(ps[i])
    {
      PieceReads(known, c, slot, per[i]);
    }
    JoinLineValue(',', ps);
    if |per| == 0 {
      assert Split(ShareValue(known, c, slot, per), ',') == [""];
      EntriesFoldOne(known, c, slot, [], "");
      assert Partition("", ':') == ("", "");
    } else {
      SplitJoin(',', ps);
      EntriesOfPieces(known, c, slot, per);
    }
  }

  /** A `_SHARES` key is recognised as one, names its slot again, and can
      start a line. */
  lemma ShareKeyReads(slot: string)
    requires SlotWritable(slot)
    ensures IsShareKey(ShareKey(slot)) && ShareSlot(ShareKey(slot)) == slot
    ensures LineKeyText(ShareKey(slot))
  {
    var k := ShareKey(slot);
    assert k[..|slot|] == Upper(slot);
    assert k[|slot|..] == "_SHARES";
    LowerOfUpper(slot);
    UpperKeeps(slot, '=');
    UpperKeeps(slot, '\n');
    if slot != "" {
      assert k[0] == UpperChar(slot[0]);
      UpperCharSpace(slot[0]);
    } else {
      assert k[0] == '_';
    }
  }

  lemma ShareKeyInjective(s: string, t: string)
    requires NoUpper(s) && NoUpper(t) && ShareKey(s) == ShareKey(t)
    ensures s == t
  {
    assert |s| == |t|;
    assert Upper(s) == ShareKey(s)[..|s|];
    assert Upper(t) == ShareKey(t)[..|t|];
    UpperInjective(s, t);
  }

  /** The device a slot is filed under on reading is the one it was
      written for. */
  lemma DeviceOfSlot(device: string, slot: string)
    requires '.' !in device && SlotNameFits(device, slot)
    ensures DeviceOf(slot) == device
  {
    if slot == device {
      FirstPieceOf(device, '.', "");
    } else {
      var rest := slot[|device| + 1..];
      assert slot == slot[..|device| + 1] + rest;
      assert slot == device + ['.'] + rest;
      FirstPieceOf(device, '.', rest);
    }
  }

  /** Reading back the line of one slot files its allocation under its device. */
  lemma AllocStepOfSlot(known: KnownSlotTypes, c: Codecs, acc: Allocations, device: string,
                        slot: string, per: PerDeviceAlloc)
    requires '.' !in device && SlotNameFits(device, slot) && SlotWritable(slot)
    requires PerDeviceWritable(known, c, slot, per)
    ensures AllocStep(known, c, acc, (ShareKey(slot), ShareValue(known, c, slot, per)))
         == Ok(SetAllocation(acc, device, slot, per))
  {
    ShareKeyReads(slot);
    ParseSharesOfValue(known, c, slot, per);
    DeviceOfSlot(device, slot);
  }

  // ---------------------------------------------------------------- allocations

  lemma {:induction false} AllocFoldAppend(known: KnownSlotTypes, c: Codecs, acc: Allocations,
                                            a: Dict<string>, b: Dict<string>)
    ensures AllocFold(known, c, acc, a + b) ==
      match AllocFold(known, c, acc, a)
      case Ok(x) => AllocFold(known, c, x, b)
      case Err(e) => Err(e)
  {
    if |b| == 0 {
      AppendNothing(a, b);
    } else {
      AllocFoldAppend(known, c, acc, a, b[..|b| - 1]);
      SnocPrefix(a, b);
    }
  }

  lemma AllocFoldOne(known: KnownSlotTypes, c: Codecs, acc: Allocations, item: (string, string))
    ensures AllocFold(known, c, acc, [item]) == AllocStep(known, c, acc, item)
  {
    assert [item][..0] == [];
  }

  /** Items that are not `_SHARES` items leave the allocations alone. */
  lemma {:induction false} AllocFoldSkips(known: KnownSlotTypes, c: Codecs, acc: Allocations, items: Dict<string>)
    requires forall i :: 0 <= i < |items| ==> !IsShareKey(items[i].0)
    ensures AllocFold(known, c, acc, items) == Ok(acc)
  {
    if |items| > 0 {
      var n := |items| - 1;
      assert forall i :: 0 <= i < n ==> items[..n][i] == items[i];
      AllocFoldSkips(known, c, acc, items[..n]);
    }
  }

  lemma HeaderKeysPlain(c: Codecs, r: KernelResourceSpec)
    ensures forall i :: 0 <= i < 4 ==> !IsShareKey(HeaderEntries(c, r)[i].0)
    ensures DistinctKeys(HeaderEntries(c, r))
  {
    assert "SCRATCH_SIZE"[5..] == "CH_SIZE";
  }

  /** Reading back the lines of one device's slots, onto allocations that
      do not have the device yet, appends the device with its slots. */
  lemma {:induction false} AllocFoldDevice(known: KnownSlotTypes, c: Codecs, init: Allocations,
                                            device: string, slots: SlotAllocs)
    requires DistinctKeys(init) && device !in Keys(init)
    requires DeviceWritable(known, c, device, slots)
    ensures AllocFold(known, c, init, SlotEntries(known, c, slots)) == Ok(init + [(device, slots)])
  {
    var n := |slots| - 1;
    var pre := slots[..n];
    var s := slots[n].0;
    var per := slots[n].1;
    var item := (ShareKey(s), ShareValue(known, c, s, per));
    assert SlotEntries(known, c, slots) == SlotEntries(known, c, pre) + [item];
    AllocFoldAppend(known, c, init, SlotEntries(known, c, pre), [item]);
    LastKeyFresh(slots);
    InitLast(slots);
    if n == 0 {
      assert SlotEntries(known, c, pre) == [];
      AllocFoldOne(known, c, init, item);
      AllocStepFirstSlot(known, c, init, device, s, per);
    } else {
      assert forall j :: 0 <= j < n ==> pre[j] == slots[j];
      AllocFoldDevice(known, c, init, device, pre);
      AllocFoldOne(known, c, init + [(device, pre)], item);
      AllocStepNextSlot(known, c, init, device, pre, s, per);
    }
  }

  lemma AllocStepFirstSlot(known: KnownSlotTypes, c: Codecs, init: Allocations,
                           device: string, s: string, per: PerDeviceAlloc)
    requires device !in Keys(init)
    requires '.' !in device && SlotNameFits(device, s) && SlotWritable(s)
    requires PerDeviceWritable(known, c, s, per)
    ensures AllocStep(known, c, init, (ShareKey(s), ShareValue(known, c, s, per)))
         == Ok(init + [(device, [(s, per)])])
  {
    AllocStepOfSlot(known, c, init, device, s, per);
    var empty: SlotAllocs := [];
    assert GetOr(init, device, empty) == empty;
    assert |Keys(empty)| == 0;
    assert Set(empty, s, per) == [(s, per)];
  }

  lemma AllocStepNextSlot(known: KnownSlotTypes, c: Codecs, init: Allocations,
                          device: string, pre: SlotAllocs, s: string, per: PerDeviceAlloc)
    requires DistinctKeys(init) && device !in Keys(init) && s !in Keys(pre)
    requires '.' !in device && SlotNameFits(device, s) && SlotWritable(s)
    requires PerDeviceWritable(known, c, s, per)
    ensures AllocStep(known, c, init + [(device, pre)], (ShareKey(s), ShareValue(known, c, s, per)))
         == Ok(init + [(device, pre + [(s, per)])])
  {
    var acc := init + [(device, pre)];
    AllocStepOfSlot(known, c, acc, device, s, per);
    DistinctAppend(init, [(device, pre)]);
    assert acc[|init|] == (device, pre);
    GetAt(acc, |init|);
    assert GetOr(acc, device, []) == pre;
    assert Set(pre, s, per) == pre + [(s, per)];
    SetExisting(acc, device, pre + [(s, per)], |init|);
    assert acc[|init| := (device, pre + [(s, per)])] == init + [(device, pre + [(s, per)])];
  }

  lemma {:induction false} AllocFoldShares(known: KnownSlotTypes, c: Codecs, allocs: Allocations)
    requires AllocationsWritable(known, c, allocs)
    ensures AllocFold(known, c, [], ShareEntries(known, c, allocs)) == Ok(allocs)
  {
    if |allocs| > 0 {
      var n := |allocs| - 1;
      var init := allocs[..n];
      LastKeyFresh(allocs);
      assert forall i :: 0 <= i < n ==> init[i] == allocs[i];
      AllocFoldShares(known, c, init);
      AllocFoldAppend(known, c, [], ShareEntries(known, c, init), SlotEntries(known, c, allocs[n].1));
      AllocFoldDevice(known, c, init, allocs[n].0, allocs[n].1);
      InitLast(allocs);
    }
  }

  // ---------------------------------------------------------------- keys

  /** The `k`-th `_SHARES` item is the one of slot `j` of device `i`. */
  predicate ShareItemAt(known: KnownSlotTypes, c: Codecs, allocs: Allocations, e: (string, string), i: int, j: int) {
    && 0 <= i < |allocs| && 0 <= j < |allocs[i].1|
    && e == (ShareKey(allocs[i].1[j].0), ShareValue(known, c, allocs[i].1[j].0, allocs[i].1[j].1))
  }

  lemma {:induction false} ShareEntryOrigin(known: KnownSlotTypes, c: Codecs, allocs: Allocations, k: nat)
    requires k < |ShareEntries(known, c, allocs)|
    ensures exists i, j :: ShareItemAt(known, c, allocs, ShareEntries(known, c, allocs)[k], i, j)
  {
    var n := |allocs| - 1;
    var init := allocs[..n];
    var a := ShareEntries(known, c, init);
    var b := SlotEntries(known, c, allocs[n].1);
    assert ShareEntries(known, c, allocs) == a + b;
    if k < |a| {
      ShareEntryOrigin(known, c, init, k);
      var i, j :| ShareItemAt(known, c, init, a[k], i, j);
      assert init[i] == allocs[i];
      assert ShareItemAt(known, c, allocs, ShareEntries(known, c, allocs)[k], i, j);
    } else {
      assert ShareItemAt(known, c, allocs, ShareEntries(known, c, allocs)[k], n, k - |a|);
    }
  }

  /** The `_SHARES` items of one device: distinct keys, readable lines. */
  lemma SlotEntriesReadable(known: KnownSlotTypes, c: Codecs, device: string, slots: SlotAllocs)
    requires DeviceWritable(known, c, device, slots)
    ensures DistinctKeys(SlotEntries(known, c, slots))
    ensures forall j :: 0 <= j < |slots| ==>
      EntryReadable(SlotEntries(known, c, slots)[j]) && IsShareKey(SlotEntries(known, c, slots)[j].0)
  {
    var es := SlotEntries(known, c, slots);
    forall a, b | 0 <= a < b < |es|
      ensures es[a].0 != es[b].0
    {
      if es[a].0 == es[b].0 {
        ShareKeyInjective(slots[a].0, slots[b].0);
      }
    }
    forall j | 0 <= j < |slots|
      ensures EntryReadable(es[j]) && IsShareKey(es[j].0)
    {
      ShareKeyReads(slots[j].0);
      ParseSharesOfValue(known, c, slots[j].0, slots[j].1);
    }
  }

  /** Slots with the same `_SHARES` key belong to the same device. */
  lemma SameKeySameDevice(known: KnownSlotTypes, c: Codecs, allocs: Allocations,
                          e: (string, string), i: int, j: int, f: (string, string), k: int, l: int)
    requires AllocationsWritable(known, c, allocs)
    requires ShareItemAt(known, c, allocs, e, i, j) && ShareItemAt(known, c, allocs, f, k, l)
    requires e.0 == f.0
    ensures i == k
  {
    var s := allocs[i].1[j].0;
    var t := allocs[k].1[l].0;
    ShareKeyInjective(s, t);
    DeviceOfSlot(allocs[i].0, s);
    DeviceOfSlot(allocs[k].0, t);
  }

  lemma {:induction false} ShareEntriesReadable(known: KnownSlotTypes, c: Codecs, allocs: Allocations)
    requires AllocationsWritable(known, c, allocs)
    ensures DistinctKeys(ShareEntries(known, c, allocs))
    ensures forall k :: 0 <= k < |ShareEntries(known, c, allocs)| ==>
      EntryReadable(ShareEntries(known, c, allocs)[k]) && IsShareKey(ShareEntries(known, c, allocs)[k].0)
  {
    if |allocs| > 0 {
      var n := |allocs| - 1;
      var init := allocs[..n];
      LastKeyFresh(allocs);
      assert forall i :: 0 <= i < n ==> init[i] == allocs[i];
      ShareEntriesReadable(known, c, init);
      SlotEntriesReadable(known, c, allocs[n].0, allocs[n].1);
      var a := ShareEntries(known, c, init);
      var b := SlotEntries(known, c, allocs[n].1);
      forall x, y | 0 <= x < |a| && 0 <= y < |b|
        ensures a[x].0 != b[y].0
      {
        ShareEntryOrigin(known, c, init, x);
        var i, j :| ShareItemAt(known, c, init, a[x], i, j);
        assert init[i] == allocs[i];
        assert ShareItemAt(known, c, allocs, a[x], i, j);
        assert ShareItemAt(known, c, allocs, b[y], n, y);
        if a[x].0 == b[y].0 {
          SameKeySameDevice(known, c, allocs, a[x], i, j, b[y], n, y);
        }
      }
      DistinctAppend(a, b);
    }
  }

  // ---------------------------------------------------------------- mounts

  lemma MountLineValue(m: Mount)
    requires MountWritable(m)
    ensures LineValue(MountToString(m)) && ',' !in MountToString(m) && MountToString(m) != ""
  {
    MountStringChars(m, '\n');
    MountStringChars(m, ',');
    var t := MountToString(m);
    assert t[|t| - 1] == PermissionValue(m.permission)[1];
  }

  lemma {:induction false} ParseMountStrings(ms: seq<Mount>)
    requires forall i :: 0 <= i < |ms| ==> MountWritable(ms[i])
    ensures ParseMounts(MountStrings(ms)) == Ok(ms)
  {
    if |ms| > 0 {
      var rest := ms[1..];
      assert forall i :: 0 <= i < |rest| ==> rest[i] == ms[i + 1];
      ParseMountStrings(rest);
      MountStringsCons(ms);
      MountLineValue(ms[0]);
      MountRoundTrip(ms[0]);
      ParseMountsCons(MountToString(ms[0]), MountStrings(rest), ms[0], rest);
      HeadTail(ms);
    }
  }

  lemma MountStringsCons(ms: seq<Mount>)
    requires |ms| > 0
    ensures MountStrings(ms) == [MountToString(ms[0])] + MountStrings(ms[1..])
  {
  }

  lemma ParseMountsCons(s: string, rest: seq<string>, m: Mount, ms: seq<Mount>)
    requires s != "" && MountFromString(s) == Ok(m) && ParseMounts(rest) == Ok(ms)
    ensures ParseMounts([s] + rest) == Ok([m] + ms)
  {
    assert ([s] + rest)[1..] == rest;
  }

  /** The MOUNTS value is a line value and reads back as the mounts. */
  lemma MountsTextReads(ms: seq<Mount>)
    requires forall i :: 0 <= i < |ms| ==> MountWritable(ms[i])
    ensures ParseMounts(Split(MountsText(ms), ',')) == Ok(ms)
    ensures LineValue(MountsText(ms))
  {
    var strs := MountStrings(ms);
    forall i | 0 <= i < |strs|
      ensures LineValue(strs[i]) && ',' !in strs[i]
    {
      MountLineValue(ms[i]);
    }
    JoinLineValue(',', strs);
    if |ms| == 0 {
      assert Split(MountsText(ms), ',') == [""];
      assert [""][1..] == [];
    } else {
      SplitJoin(',', strs);
      ParseMountStrings(ms);
    }
  }

  // ---------------------------------------------------------------- the round trip

  /** The four fixed items: distinct keys that are not `_SHARES` keys,
      and readable lines. */
  lemma HeaderEntriesReadable(known: KnownSlotTypes, c: Codecs, r: KernelResourceSpec)
    requires RoundTripSafe(known, c, r)
    ensures forall i :: 0 <= i < |HeaderEntries(c, r)| ==> EntryReadable(HeaderEntries(c, r)[i])
  {
    var hs := HeaderEntries(c, r);
    MountsTextReads(r.mounts);
    HeaderKeysText();
    assert EntryReadable(hs[0]);
    assert EntryReadable(hs[1]);
    assert EntryReadable(hs[2]);
    assert EntryReadable(hs[3]);
  }

  lemma HeaderKeysText()
    ensures LineKeyText("CID") && LineKeyText("SCRATCH_SIZE") && LineKeyText("MOUNTS") && LineKeyText("SLOTS")
  {
  }

  lemma ReadableAppend(a: Dict<string>, b: Dict<string>)
    requires forall i :: 0 <= i < |a| ==> EntryReadable(a[i])
    requires forall i :: 0 <= i < |b| ==> EntryReadable(b[i])
    ensures forall i :: 0 <= i < |a + b| ==> EntryReadable((a + b)[i])
  {
    forall i | 0 <= i < |a + b|
      ensures EntryReadable((a + b)[i])
    {
      if i < |a| {
        assert (a + b)[i] == a[i];
      } else {
        assert (a + b)[i] == b[i - |a|];
      }
    }
  }

  /** The items written: four fixed ones, then the `_SHARES` ones, with
      distinct keys and each one a readable line. */
  lemma EntriesReadable(known: KnownSlotTypes, c: Codecs, r: KernelResourceSpec)
    requires RoundTripSafe(known, c, r)
    ensures DistinctKeys(HeaderEntries(c, r) + ShareEntries(known, c, r.allocations))
    ensures forall i :: 0 <= i < |HeaderEntries(c, r) + ShareEntries(known, c, r.allocations)| ==>
      EntryReadable((HeaderEntries(c, r) + ShareEntries(known, c, r.allocations))[i])
  {
    var hs := HeaderEntries(c, r);
    var ss := ShareEntries(known, c, r.allocations);
    HeaderKeysPlain(c, r);
    ShareEntriesReadable(known, c, r.allocations);
    HeaderEntriesReadable(known, c, r);
    DistinctAppend(hs, ss);
    ReadableAppend(hs, ss);
  }

  lemma WritableFits(known: KnownSlotTypes, c: Codecs, allocs: Allocations)
    requires AllocationsWritable(known, c, allocs)
    ensures AllFit(allocs)
  {
  }

  /** The reader's first loop gives back the items written. */
  lemma KvPairsOfText(es: Dict<string>)
    requires DistinctKeys(es)
    requires forall i :: 0 <= i < |es| ==> EntryReadable(es[i])
    ensures KvPairs(Split(Unlines(EntryLines(es)), '\n')) == es
  {
    var lines := EntryLines(es);
    forall i | 0 <= i < |lines|
      ensures '\n' !in lines[i]
    {
      LineOfEntry(es[i].0, es[i].1);
    }
    SplitUnlines(lines);
    KvPairsSnocPlain(lines, "");
    KvPairsOfEntries(es);
  }

  /** The reader's second loop gives back the allocations written. */
  lemma AllocFoldOfWritten(known: KnownSlotTypes, c: Codecs, r: KernelResourceSpec)
    requires AllocationsWritable(known, c, r.allocations)
    ensures AllocFold(known, c, [], HeaderEntries(c, r) + ShareEntries(known, c, r.allocations)) == Ok(r.allocations)
  {
    var hs := HeaderEntries(c, r);
    AllocFoldAppend(known, c, [], hs, ShareEntries(known, c, r.allocations));
    HeaderKeysPlain(c, r);
    AllocFoldSkips(known, c, [], hs);
    AllocFoldShares(known, c, r.allocations);
  }

  /** The fixed fields are read back from their four items. */
  lemma AssembleOfWritten(known: KnownSlotTypes, c: Codecs, r: KernelResourceSpec, es: Dict<string>)
    requires RoundTripSafe(known, c, r)
    requires DistinctKeys(es) && |es| >= 4 && es[..4] == HeaderEntries(c, r)
    ensures Assemble(c, es, r.allocations) == Ok(r)
  {
    var hs := HeaderEntries(c, r);
    assert es[0] == hs[0] && es[1] == hs[1] && es[2] == hs[2] && es[3] == hs[3];
    GetAt(es, 0);
    GetAt(es, 1);
    GetAt(es, 2);
    GetAt(es, 3);
    MountsTextReads(r.mounts);
  }

  /** `read_from_string(write_to_string(r)) == r` for every record whose
      values fit the format. */
  lemma RoundTrip(known: KnownSlotTypes, c: Codecs, r: KernelResourceSpec)
    requires RoundTripSafe(known, c, r)
    ensures Serialize(known, c, r).Ok?
    ensures Deserialize(known, c, Serialize(known, c, r).value) == Ok(r)
  {
    var es := HeaderEntries(c, r) + ShareEntries(known, c, r.allocations);
    WritableFits(known, c, r.allocations);
    SerializeLayout(known, c, r);
    EntriesReadable(known, c, r);
    KvPairsOfText(es);
    AllocFoldOfWritten(known, c, r);
    assert es[..4] == HeaderEntries(c, r);
    AssembleOfWritten(known, c, r, es);
  }
}
