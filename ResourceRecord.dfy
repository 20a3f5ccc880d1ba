/** `KernelResourceSpec` of `src/ai/backend/agent/resources.py`: the record of
    one container's resource grant, and the line-oriented `KEY=VALUE` text
    it is persisted as so that the agent can rebuild its allocations after a
    restart.  This module holds the record and the two directions of the
    text format as functions; `ResourceRecordCodec` holds the loops of
    `write_to_string` and `read_from_string` proved equal to them, and
    `ResourceRecordProofs` what is proved about them.

    The process-wide `known_slot_types` table is an explicit parameter, and
    so are the formats defined outside this file (`BinarySize`, `json`,
    `ResourceSlot`), bundled as `Codecs`. */
module ResourceRecord {
  import opened Wrappers
  import opened Text
  import opened Dicts
  import opened Mounts

  // ---------------------------------------------------------------- data

  /** `SlotTypes`: whether a slot counts units or measures bytes. */
  datatype SlotType = Count | Bytes

  type KnownSlotTypes = map<string, SlotType>

  /** `known_slot_types.get(slot_name, 'count')`: an unregistered slot is a
      count slot. */
  function SlotTypeOf(known: KnownSlotTypes, slot: string): SlotType {
    if slot in known then known[slot] else Count
  }

  /** The three outcomes of reading one amount inside the `try` block:
      a value, a `KeyError` (the entry is skipped), or any other exception
      (it escapes and the whole read fails). */
  datatype AmountParse = Parsed(value: nat) | RaisedKeyError | RaisedOther

  /** The formats implemented outside this file, as functions the caller
      supplies.  Only what the round trip needs is assumed of them, and
      only for the values being written (see `ResourceRecordRoundTrip`). */
  datatype Codecs = Codecs(
    formatScratch: int -> string,               // f'{BinarySize(n):m}'
    parseScratch: string -> Option<int>,        // BinarySize.finite_from_str
    formatBytes: nat -> string,                 // f'{BinarySize(n):s}'
    parseBytes: string -> AmountParse,          // Decimal(BinarySize.from_str(s))
    dumpSlots: Dict<string> -> string,          // json.dumps
    loadSlots: string -> Option<Dict<string>>)  // ResourceSlot(json.loads(s))

  /** Device id to allocated amount. */
  type PerDeviceAlloc = Dict<nat>

  /** Slot name to its per-device allocation. */
  type SlotAllocs = Dict<PerDeviceAlloc>

  /** Device name to its slots. */
  type Allocations = Dict<SlotAllocs>

  datatype KernelResourceSpec = KernelResourceSpec(
    containerId: string,
    slots: Dict<string>,
    allocations: Allocations,
    scratchDiskSize: int,
    mounts: seq<Mount>)

  // ---------------------------------------------------------------- writing

  /** The ValueError `write_to_string` raises for a slot that does not carry
      its device name as a prefix. */
  datatype WriteError = PrefixMismatch(deviceName: string, slotName: string)

  /** The check of `write_to_string`: the slot name is the device name or
      starts with the device name and a dot. */
  predicate SlotNameFits(device: string, slot: string) {
    StartsWith(slot, device + ".") || slot == device
  }

  /** An amount as written: the byte formatter for slots registered as
      bytes, the decimal digits otherwise. */
  function FormatAmount(known: KnownSlotTypes, c: Codecs, slot: string, amount: nat): string {
    if SlotTypeOf(known, slot) == Bytes then c.formatBytes(amount) else NatToDecimal(amount)
  }

  /** One `dev_id:amount` piece. */
  function Piece(known: KnownSlotTypes, c: Codecs, slot: string, entry: (string, nat)): string {
    entry.0 + ":" + FormatAmount(known, c, slot, entry.1)
  }

  function Pieces(known: KnownSlotTypes, c: Codecs, slot: string, per: PerDeviceAlloc): (r: seq<string>)
    ensures |r| == |per|
  {
    seq(|per|, i requires 0 <= i < |per| => Piece(known, c, slot, per[i]))
  }

  /** The key of a slot's allocation line. */
  function ShareKey(slot: string): string {
    Upper(slot) + "_SHARES"
  }

  /** The value of a slot's allocation line. */
  function ShareValue(known: KnownSlotTypes, c: Codecs, slot: string, per: PerDeviceAlloc): string {
    Join(',', Pieces(known, c, slot, per))
  }

  /** The allocation line of one slot, without its newline. */
  function ShareLine(known: KnownSlotTypes, c: Codecs, slot: string, per: PerDeviceAlloc): string {
    ShareKey(slot) + "=" + ShareValue(known, c, slot, per)
  }

  /** The allocation lines of one device's slots, in order, or the error for
      the first slot that fails the prefix check. */
  function SlotLines(known: KnownSlotTypes, c: Codecs, device: string, slots: SlotAllocs)
    : Result<seq<string>, WriteError>
  {
    if |slots| == 0 then Ok([])
    else
      var before :- SlotLines(known, c, device, slots[..|slots| - 1]);
      var slot := slots[|slots| - 1].0;
      var per := slots[|slots| - 1].1;
      if !SlotNameFits(device, slot) then Err(PrefixMismatch(device, slot))
      else Ok(before + [ShareLine(known, c, slot, per)])
  }

  /** The allocation lines of all devices, in order, or the first error. */
  function AllocationLines(known: KnownSlotTypes, c: Codecs, allocs: Allocations)
    : Result<seq<string>, WriteError>
  {
    if |allocs| == 0 then Ok([])
    else
      var before :- AllocationLines(known, c, allocs[..|allocs| - 1]);
      var device := allocs[|allocs| - 1].0;
      var slots := allocs[|allocs| - 1].1;
      var lines :- SlotLines(known, c, device, slots);
      Ok(before + lines)
  }

  /** `','.join(map(str, self.mounts))`. */
  function MountsText(mounts: seq<Mount>): string {
    Join(',', MountStrings(mounts))
  }

  /** `map(str, mounts)`. */
  function MountStrings(mounts: seq<Mount>): (r: seq<string>)
    ensures |r| == |mounts|
  {
    seq(|mounts|, i requires 0 <= i < |mounts| => MountToString(mounts[i]))
  }

  /** `KEY=VALUE` lines of key-value pairs. */
  function EntryLines(entries: Dict<string>): (ls: seq<string>)
    ensures |ls| == |entries|
  {
    seq(|entries|, i requires 0 <= i < |entries| => entries[i].0 + "=" + entries[i].1)
  }

  /** The four fixed items, in the order they are written. */
  function HeaderEntries(c: Codecs, r: KernelResourceSpec): Dict<string> {
    [ ("CID", r.containerId),
      ("SCRATCH_SIZE", c.formatScratch(r.scratchDiskSize)),
      ("MOUNTS", MountsText(r.mounts)),
      ("SLOTS", c.dumpSlots(r.slots)) ]
  }

  /** The four fixed lines, without their newlines. */
  function HeaderLines(c: Codecs, r: KernelResourceSpec): seq<string> {
    EntryLines(HeaderEntries(c, r))
  }

  /** Lines, each followed by a newline. */
  function Unlines(lines: seq<string>): string {
    if |lines| == 0 then ""
    else Unlines(lines[..|lines| - 1]) + (lines[|lines| - 1] + "\n")
  }

  /** What `write_to_string` returns or raises. */
  function Serialize(known: KnownSlotTypes, c: Codecs, r: KernelResourceSpec): Result<string, WriteError> {
    var shares :- AllocationLines(known, c, r.allocations);
    Ok(Unlines(HeaderLines(c, r) + shares))
  }

  // ---------------------------------------------------------------- reading

  /** What makes `read_from_string` raise. */
  datatype ReadError =
    | MissingKey(key: string)                          // KeyError on kvpairs[...]
    | MalformedAmount(slotName: string, raw: string)   // a non-KeyError from the amount parser
    | BadMount(mountError: MountError)                 // ValueError from Mount.from_str
    | BadScratchSize(rawSize: string)                  // from BinarySize.finite_from_str
    | BadSlots(rawSlots: string)                       // from json.loads / ResourceSlot

  /** One line of the first loop: a line with `=` sets the key before the
      first `=` of the stripped line to what follows it. */
  function KvStep(kv: Dict<string>, line: string): Dict<string> {
    if '=' !in line then kv
    else
      var kvPair := Partition(Strip(line), '=');
      Set(kv, kvPair.0, kvPair.1)
  }

  /** The `kvpairs` dictionary after the given lines. */
  function KvPairs(lines: seq<string>): Dict<string> {
    if |lines| == 0 then []
    else KvStep(KvPairs(lines[..|lines| - 1]), lines[|lines| - 1])
  }

  /** The body of the `try` block: `Decimal(BinarySize.from_str(raw))` for a
      byte slot, `Decimal(raw)` otherwise.  `Decimal` of anything but a
      decimal number raises InvalidOperation, never a KeyError. */
  function ParseAmount(known: KnownSlotTypes, c: Codecs, slot: string, raw: string): AmountParse {
    if SlotTypeOf(known, slot) == Bytes then c.parseBytes(raw)
    else
      match DecimalToNat(raw)
      case Some(n) => Parsed(n)
      case None => RaisedOther
  }

  /** One entry of a `_SHARES` value: skipped when its device id or amount
      is empty or its amount raises a KeyError, fatal when its amount
      raises anything else, stored otherwise. */
  function EntryStep(known: KnownSlotTypes, c: Codecs, slot: string, per: PerDeviceAlloc, entry: string)
    : Result<PerDeviceAlloc, ReadError>
  {
    var devId := Partition(entry, ':').0;
    var raw := Partition(entry, ':').1;
    if devId == "" || raw == "" then Ok(per)
    else
      match ParseAmount(known, c, slot, raw)
      case Parsed(n) => Ok(Set(per, devId, n))
      case RaisedKeyError => Ok(per)
      case RaisedOther => Err(MalformedAmount(slot, raw))
  }

  /** The per-device dictionary after the given entries, starting from `acc`. */
  function EntriesFold(known: KnownSlotTypes, c: Codecs, slot: string, acc: PerDeviceAlloc, entries: seq<string>)
    : Result<PerDeviceAlloc, ReadError>
  {
    if |entries| == 0 then Ok(acc)
    else
      var per :- EntriesFold(known, c, slot, acc, entries[..|entries| - 1]);
      EntryStep(known, c, slot, per, entries[|entries| - 1])
  }

  /** The per-device allocation read from a `_SHARES` value. */
  function ParseShares(known: KnownSlotTypes, c: Codecs, slot: string, value: string)
    : Result<PerDeviceAlloc, ReadError>
  {
    EntriesFold(known, c, slot, [], Split(value, ','))
  }

  predicate IsShareKey(key: string) {
    EndsWith(key, "_SHARES")
  }

  /** `key[:-7].lower()`. */
  function ShareSlot(key: string): string
    requires IsShareKey(key)
  {
    Lower(key[..|key| - 7])
  }

  /** `slot_name.split('.')[0]`. */
  function DeviceOf(slot: string): string {
    Split(slot, '.')[0]
  }

  /** `allocations[device_name][slot_name] = per_device_alloc` on the nested
      defaultdict: a new device gets an empty slot dictionary first. */
  function SetAllocation(allocs: Allocations, device: string, slot: string, per: PerDeviceAlloc): Allocations {
    Set(allocs, device, Set(GetOr(allocs, device, []), slot, per))
  }

  /** One item of the second loop. */
  function AllocStep(known: KnownSlotTypes, c: Codecs, allocs: Allocations, item: (string, string))
    : Result<Allocations, ReadError>
  {
    var key := item.0;
    var val := item.1;
    if !IsShareKey(key) then Ok(allocs)
    else
      var slot := ShareSlot(key);
      var per :- ParseShares(known, c, slot, val);
      Ok(SetAllocation(allocs, DeviceOf(slot), slot, per))
  }

  /** The allocations after the given `kvpairs` items, starting from `acc`. */
  function AllocFold(known: KnownSlotTypes, c: Codecs, acc: Allocations, items: Dict<string>)
    : Result<Allocations, ReadError>
  {
    if |items| == 0 then Ok(acc)
    else
      var allocs :- AllocFold(known, c, acc, items[..|items| - 1]);
      AllocStep(known, c, allocs, items[|items| - 1])
  }

  /** `[Mount.from_str(m) for m in pieces if m]`. */
  function ParseMounts(pieces: seq<string>): Result<seq<Mount>, ReadError> {
    if |pieces| == 0 then Ok([])
    else if pieces[0] == "" then ParseMounts(pieces[1..])
    else
      match MountFromString(pieces[0])
      case Err(e) => Err(BadMount(e))
      case Ok(m) =>
        var rest :- ParseMounts(pieces[1..]);
        Ok([m] + rest)
  }

  /** `kvpairs[key]`. */
  function Require(kv: Dict<string>, key: string): Result<string, ReadError> {
    match Get(kv, key)
    case Some(v) => Ok(v)
    case None => Err(MissingKey(key))
  }

  /** What `read_from_string` returns or raises, in the order the source
      evaluates things: the allocation lines, then the fixed keys. */
  function Deserialize(known: KnownSlotTypes, c: Codecs, text: string): Result<KernelResourceSpec, ReadError> {
    var kv := KvPairs(Split(text, '\n'));
    var allocations :- AllocFold(known, c, [], kv);
    Assemble(c, kv, allocations)
  }

  /** The record built from `kvpairs` once the allocations are read:
      `MOUNTS` first, then the constructor's arguments from `CID` to
      `SLOTS`. */
  function Assemble(c: Codecs, kv: Dict<string>, allocations: Allocations): Result<KernelResourceSpec, ReadError> {
    var mountsText :- Require(kv, "MOUNTS");
    var mounts :- ParseMounts(Split(mountsText, ','));
    var containerId := GetOr(kv, "CID", "unknown");
    var scratchText :- Require(kv, "SCRATCH_SIZE");
    var scratch :- match c.parseScratch(scratchText)
                   case Some(n) => Ok(n)
                   case None => Err(BadScratchSize(scratchText));
    var slotsText :- Require(kv, "SLOTS");
    var slots :- match c.loadSlots(slotsText)
                 case Some(d) => Ok(d)
                 case None => Err(BadSlots(slotsText));
    Ok(KernelResourceSpec(containerId, slots, allocations, scratch, mounts))
  }
}
