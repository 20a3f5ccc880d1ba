# Backend.AI agent resource records, Raft term/vote state and Raft log, in Dafny

This project models three pieces of Backend.AI and proves properties of the
models.

**Kernel resource records** (`src/ai/backend/agent/resources.py`). The agent
persists each container's resource grant as `KEY=VALUE` lines so that it can
rebuild its allocations after a restart. The record holds:

- the container id;
- the user-requested slots;
- the scratch size;
- the vfolder mounts;
- the allocations, nested as device → slot → device id → amount.

`write_to_string` and `read_from_string` are modelled twice. The functions
`ResourceRecord.Serialize` and `ResourceRecord.Deserialize` are the reference
definitions. The methods in `ResourceRecordCodec` follow the source's loops
(`resource_str +=`, the `pieces` list, the `kvpairs` dict, the nested
`allocations` dict) and are proved equal to those functions. The headline
theorem is `ResourceRecordRoundTrip.RoundTrip`: reading back what was written
gives the record again, for every record satisfying `RoundTripSafe`.
Those conditions are:

- slot names are lower-case, hold no `=` and carry their device's name as
  prefix;
- device names hold no `.`, and every device has at least one slot;
- no field holds a `,`, `:` or newline where the format uses that character
  as a separator, and no value has whitespace where `strip()` would cut it;
- dictionary keys are distinct;
- the byte-size and JSON formatters read back what they print, for the
  values in the record.

The module also models three smaller pieces:

- `Mount.__str__` and `Mount.from_str`, with the volume/bind
  type-inference rule;
- `bitmask2set`;
- the plugin order produced by `ComputePluginContext.discover_plugins`, and
  `attach_intrinsic_device`.

**Raft node** (`src/ai/backend/common/distributed/raft/raft.py`).
`RaftFiniteStateMachine` becomes a class whose methods update the node's
fields. Those fields are the current term, the vote, the state, the known
leader, the elapsed time and the sequence of states handed to the
state-change callback.

The model follows the code, which implements only part of the receiver rules
of the Raft paper. There is no log consistency check and no up-to-date check
on votes. A lost election leaves the node a FOLLOWER, because the term bump
in `_synchronize_term` already set that state.

A ghost map records the vote cast in each term. The methods never overwrite
an entry of that map with a different candidate, so a node votes for at most
one candidate per term. `is_leader` is the predicate `IsLeader`, which holds
when the known leader (`leaderId`) is this node. `OnAppendEntries` states
when it holds after a heartbeat.

**Raft log** (`src/ai/backend/common/distributed/raft/storage.py`).
`InMemoryLogStorage` becomes a class over a `seq`, with Python list indexing
spelled out in `PyIndex`.

Modelling choices:

- **Dicts.** A Python dict is an insertion-ordered list of key/value pairs
  (`Dicts.Dict`). Assignment replaces the value of an existing key in place
  and appends a new key at the end, as Python does.
- **Amounts.** `Decimal` amounts are natural numbers. A count amount is
  written and read as plain decimal digits.
- **Outside formats.** `known_slot_types` is an explicit parameter. The
  formats defined outside this file come in as the function-valued fields of
  `ResourceRecord.Codecs`:
  - `BinarySize` printing and parsing;
  - `json.dumps`, and `json.loads` wrapped in `ResourceSlot`.

  `RoundTrip` requires only that these codecs invert each other on the
  values being written.
- **Paths.** A path is a string. `str(Path(p))` is modelled as pathlib's
  normal form:
  - a root of `/`, or exactly `//`;
  - `/`-separated parts, with empty and `.` parts dropped.
- **Strings.** `str.strip` uses Python's whitespace set.

The warning at `resources.py:165-168` says that an entry of a slot of
unknown type is ignored on reading. The lookup it guards,
`known_slot_types.get(slot_name, 'count')` at `resources.py:161`, defaults to
`'count'` and never raises, so such a slot is read as a count slot. Only a
`KeyError` raised by the byte-size parser drops an entry
(`ResourceRecordProofs.EntriesFoldSkips`).

## Model

| member | source | states |
|---|---|---|
| `ResourceRecordCodec.WriteToString` | src/ai/backend/agent/resources.py:105-130 | The text the method builds, or the `ValueError` it raises, is exactly `Serialize` of the record. |
| `ResourceRecordCodec.WriteHeader` | src/ai/backend/agent/resources.py:106-114 | The accumulated string is the four `CID`, `SCRATCH_SIZE`, `MOUNTS` and `SLOTS` lines, each terminated by `\n`, in that order. |
| `ResourceRecordCodec.WriteDeviceSlots` | src/ai/backend/agent/resources.py:117-128 | For one device, either one `_SHARES` line is appended per slot in dict order, or the error names the first slot without the device prefix. |
| `ResourceRecordCodec.FormatShares` | src/ai/backend/agent/resources.py:121-127 | `alloc_str` is the `dev_id:amount` pieces joined by `,`. Byte-typed slots use the byte formatter. |
| `ResourceRecord.Serialize` | src/ai/backend/agent/resources.py:105-130 | The reference definition of `write_to_string`: the four header lines, then the `_SHARES` lines of the devices in order, each ended by `\n`, or the first prefix error. Its meaning is stated by `SerializeLayout` and `RoundTrip`. |
| `ResourceRecordProofs.SerializeLayout` | src/ai/backend/agent/resources.py:111-128 | Writing succeeds iff every slot name equals its device name or starts with `device.`. The text is then the four header entries, followed by one `SLOT_SHARES=` entry per (device, slot) pair in iteration order. Each entry is written as `key=value\n`. On failure, the error names the first slot that does not fit. |
| `ResourceRecordProofs.AllocationLinesFit` | src/ai/backend/agent/resources.py:116-128 | The allocation lines exist iff every slot fits its device. They are then the share entries, and otherwise the error is the first misfit in iteration order. |
| `ResourceRecordProofs.SlotLinesFit` | src/ai/backend/agent/resources.py:117-128 | The same, for the slots of one device. |
| `ResourceRecord.Deserialize` | src/ai/backend/agent/resources.py:132-179 | The reference definition of `read_from_string`: the key-value pass, the allocation pass, then the fixed keys, failing with the first exception the code raises. Its meaning is stated by `DeserializeFields`, `WriteAfterRead` and `RoundTrip`. |
| `ResourceRecordCodec.ReadFromString` | src/ai/backend/agent/resources.py:136-179 | The record the method builds, or the exception it raises, is exactly `Deserialize` of the text. |
| `ResourceRecordCodec.ReadShares` | src/ai/backend/agent/resources.py:154-170 | The per-device map read from one `_SHARES` value is exactly `ParseShares`. |
| `ResourceRecordCodec.AssembleRecord` | src/ai/backend/agent/resources.py:172-179 | The final record, or the error for a missing key or a rejected field, is exactly `Assemble`. |
| `ResourceRecordProofs.KvPairsIgnoresPlainLine` | src/ai/backend/agent/resources.py:138-140 | A line without `=` changes nothing, wherever it stands. |
| `ResourceRecordProofs.KvPairsKeys` | src/ai/backend/agent/resources.py:138-142 | A key is in `kvpairs` iff some line containing `=` has it as its stripped key. |
| `ResourceRecordProofs.KvPairsLastWins` | src/ai/backend/agent/resources.py:141-142 | The value kept for a key is the one from the last line that sets it. |
| `ResourceRecordProofs.KvPairsSnocSet` | src/ai/backend/agent/resources.py:141-142 | A line with `=` sets the key before the first `=` of the stripped line to the text after it. |
| `ResourceRecordProofs.EntriesFoldAppend` | src/ai/backend/agent/resources.py:155-170 | Reading entries `a + b` reads `a`, then reads `b` from the map that reading `a` left. |
| `ResourceRecordProofs.EntriesFoldSkips` | src/ai/backend/agent/resources.py:156-169 | These entries are skipped as if absent: an empty device id, an empty amount, or a byte amount whose parser raises `KeyError`. |
| `ResourceRecordProofs.EntriesFoldFatal` | src/ai/backend/agent/resources.py:160-164 | Any other amount-parse failure aborts the whole read and names the slot and the raw amount. |
| `ResourceRecordProofs.DeserializeFields` | src/ai/backend/agent/resources.py:172-179 | A missing `MOUNTS` raises `KeyError` once the allocations have been read. A successful read takes each field from its line, and `CID` defaults to `"unknown"`. |
| `ResourceRecordProofs.AllocFoldFiled` | src/ai/backend/agent/resources.py:150-171 | Every slot read is filed under `slot_name.split('.')[0]`. |
| `ResourceRecordProofs.WriteAfterRead` | src/ai/backend/agent/resources.py:150-171 | Every record that reading produces can be written back without the prefix error. |
| `ResourceRecordRoundTrip.RoundTrip` | src/ai/backend/agent/resources.py:105-179 | For a record satisfying `RoundTripSafe`, writing succeeds and reading the text back gives the same record. |
| `ResourceRecordRoundTrip.SplitUnlines` | src/ai/backend/agent/resources.py:138 | Splitting `\n`-terminated lines on `\n` gives the lines plus one empty trailing piece. |
| `ResourceRecordRoundTrip.KvPairsOfEntries` | src/ai/backend/agent/resources.py:137-142 | Reading the `key=value` lines of distinct readable entries gives exactly those entries, in order. |
| `ResourceRecordRoundTrip.KvPairsOfText` | src/ai/backend/agent/resources.py:137-142 | The same, starting from the newline-terminated text. |
| `ResourceRecordRoundTrip.PieceReads` | src/ai/backend/agent/resources.py:124-126 | A written `dev_id:amount` piece partitions back into its device id and an amount that parses to the same number. |
| `ResourceRecordRoundTrip.EntriesOfPieces` | src/ai/backend/agent/resources.py:155-170 | Reading the written pieces of a per-device map gives that map back. |
| `ResourceRecordRoundTrip.ParseSharesOfValue` | src/ai/backend/agent/resources.py:155-170 | Reading a written `_SHARES` value gives the per-device map back, and the value is a single line. |
| `ResourceRecordRoundTrip.ShareKeyReads` | src/ai/backend/agent/resources.py:151-152 | The key `slot.upper() + "_SHARES"` is recognised as a share key, and lower-casing it gives the slot name back. |
| `ResourceRecordRoundTrip.ShareKeyInjective` | src/ai/backend/agent/resources.py:128 | Two lower-case slot names with the same share key are equal. |
| `ResourceRecordRoundTrip.DeviceOfSlot` | src/ai/backend/agent/resources.py:153 | For a device name without `.`, `slot_name.split('.')[0]` of a fitting slot is that device. |
| `ResourceRecordRoundTrip.AllocFoldSkips` | src/ai/backend/agent/resources.py:150-151 | Items without the `_SHARES` suffix leave the allocations as they are. |
| `ResourceRecordRoundTrip.AllocFoldDevice` | src/ai/backend/agent/resources.py:150-171 | Reading the share entries of one device adds exactly that device with its slots. |
| `ResourceRecordRoundTrip.AllocFoldShares` | src/ai/backend/agent/resources.py:150-171 | Reading all share entries gives back the allocations that were written. |
| `ResourceRecordRoundTrip.ShareEntriesReadable` | src/ai/backend/agent/resources.py:116-128 | The share entries have distinct keys and each is one readable line. |
| `ResourceRecordRoundTrip.ParseMountStrings` | src/ai/backend/agent/resources.py:172 | `Mount.from_str` over the written mount strings gives the mounts back. |
| `ResourceRecordRoundTrip.MountsTextReads` | src/ai/backend/agent/resources.py:172 | Splitting the `MOUNTS` value on `,` and parsing it gives the mounts back. |
| `ResourceRecordRoundTrip.HeaderEntriesReadable` | src/ai/backend/agent/resources.py:111-114 | Each header entry is one readable `key=value` line. |
| `ResourceRecordRoundTrip.AssembleOfWritten` | src/ai/backend/agent/resources.py:173-179 | From the written header entries, the final step rebuilds the record. |
| `Mounts.MountToString` | src/ai/backend/agent/resources.py:377-378 | `str(m)` is the source (`None` when missing), the target and the permission value, joined by `:`. Its meaning is stated by `FieldsOfString`, `MountStringChars` and `MountRoundTrip`. |
| `Mounts.MountFromString` | src/ai/backend/agent/resources.py:380-397 | `Mount.from_str`, with each `ValueError` as an error value. Its meaning is stated by `MountFromStringErrors`, `MountFromStringInfers` and `MountRoundTrip`. |
| `Mounts.MountRoundTrip` | src/ai/backend/agent/resources.py:377-397 | `from_str(str(m)) == m` for every mount `from_str` could build that has no `:` in its paths. |
| `Mounts.MountReparse` | src/ai/backend/agent/resources.py:377-397 | Re-parsing the string form of a parsed mount gives the same mount. |
| `Mounts.MountFromStringErrors` | src/ai/backend/agent/resources.py:381-396 | Each outcome together with the exact condition for it, checked in the order the code checks:<br>the wrong number of `:` fields;<br>a relative source of more than one part;<br>a relative target;<br>an unknown permission;<br>success. |
| `Mounts.MountFromStringInfers` | src/ai/backend/agent/resources.py:383-397 | A parsed mount is BIND exactly when its source is absolute, and VOLUME only for a single relative name. Its target is absolute, it has no options, and its permission is the third field. |
| `Mounts.FieldsOfString` | src/ai/backend/agent/resources.py:377-378 | `str(m)` splits on `:` into source, target and permission value. |
| `Mounts.MountStringChars` | src/ai/backend/agent/resources.py:378 | `str(m)` contains no character that is absent from both paths, other than `:` and the letters of the permission value. |
| `Mounts.PermissionOf` | src/ai/backend/agent/resources.py:396 | `MountPermission(perm)` finds the permission whose value is `perm`, and fails for any other string. |
| `Mounts.PathStrIdempotent` | src/ai/backend/agent/resources.py:383 | `str(Path(p))` is in normal form. It keeps whether the path is absolute, and it keeps its parts. |
| `Mounts.AbsoluteIdempotent` | src/ai/backend/agent/resources.py:385 | For an absolute path, normalising keeps the root and the parts. |
| `Mounts.RelativeIdempotent` | src/ai/backend/agent/resources.py:386 | For a relative path, normalising keeps it relative and keeps its parts. |
| `Text.SplitJoin` | src/ai/backend/agent/resources.py:155 | Splitting a `,`-join of pieces without `,` gives the pieces back. |
| `Text.Partition` | src/ai/backend/agent/resources.py:156 | `str.partition` splits at the first separator. If there is none, it returns the whole string and an empty tail. |
| `Text.PartitionAt` | src/ai/backend/agent/resources.py:156 | Partitioning `p:rest`, where `p` has no `:`, gives `(p, rest)`. |
| `Text.StripOfStable` | src/ai/backend/agent/resources.py:141 | `strip()` leaves a string alone when neither end is whitespace. |
| `Text.LowerOfUpper` | src/ai/backend/agent/resources.py:152 | `key[:-7].lower()` undoes the `slot_name.upper()` of the writer when the name has no upper-case letters. |
| `Text.UpperInjective` | src/ai/backend/agent/resources.py:128 | `upper()` is one-to-one on names without upper-case letters. |
| `Text.DecimalToNat` | src/ai/backend/agent/resources.py:164 | The model reads a count amount as a non-empty digit string only, a restriction of `Decimal()`. A canonical digit string is read as the number whose `str` is that very string. |
| `Text.CanonicalPrints` | src/ai/backend/agent/resources.py:164 | Printing the value of a digit string without a leading zero gives the string back, the converse of `DecimalRoundTrip`. |
| `Text.DecimalRoundTrip` | src/ai/backend/agent/resources.py:164 | `Decimal(str(n))` gives `n` back. |
| `Dicts.Set` | src/ai/backend/agent/resources.py:142 | `d[k] = v` appends a new key at the end, keeps the key order for an existing key, and keeps keys distinct. |
| `Dicts.GetOfSet` | src/ai/backend/agent/resources.py:142 | After `d[k] = v`, `k` reads `v` and every other key reads what it did before. |
| `Dicts.Get` | src/ai/backend/agent/resources.py:174 | A lookup finds a value exactly when the key is present. |
| `Bitmask.Bitmask2Set` | src/ai/backend/agent/resources.py:400-408 | The result holds `i` iff bit `i` of the mask is set. It is empty for 0 and for every negative mask. |
| `Bitmask.PositionsBits` | src/ai/backend/agent/resources.py:403-407 | The positions the loop appends, counted from `offset`, are exactly the set bits of the mask. |
| `Bitmask.PositionsValue` | src/ai/backend/agent/resources.py:400-408 | Adding up `2 ** i` over the positions gives back the non-negative mask, so the set determines the mask. |
| `Bitmask.PositionsIncreasing` | src/ai/backend/agent/resources.py:403-407 | The loop appends strictly increasing positions, so `bset` has no repeats. |
| `Plugins.DiscoverPlugins` | src/ai/backend/agent/resources.py:348-363 | The yielded list is a permutation of the scanned one. It is sorted by `accel_lt_intrinsic`, stable within each key, and no `cpu`/`mem` entry is followed by any other plugin. |
| `Plugins.DiscoverOrderPermutes` | src/ai/backend/agent/resources.py:362 | The reordering loses and duplicates nothing. |
| `Plugins.DiscoverOrderSorted` | src/ai/backend/agent/resources.py:356-362 | Every non-intrinsic plugin comes before every `cpu`/`mem` plugin. |
| `Plugins.DiscoverOrderStable` | src/ai/backend/agent/resources.py:362 | The non-intrinsic plugins keep their scanned relative order, and so do the intrinsic ones. |
| `Plugins.DiscoverOrderUnique` | src/ai/backend/agent/resources.py:362 | Any list that is sorted by the key and stable is this order, so the ordering is fully determined. |
| `Plugins.ComputePluginContext.AttachIntrinsicDevice` | src/ai/backend/agent/resources.py:365-366 | `plugins[plugin.key]` becomes the plugin. Every other key reads as before, and keys stay distinct. |
| `Raft.RaftFiniteStateMachine.constructor` | src/ai/backend/common/distributed/raft/raft.py:31-67 | A new node has term 0, no vote and no leader. It is a FOLLOWER, and one transition has been reported. |
| `Raft.RaftFiniteStateMachine.IsLeader` | src/ai/backend/common/distributed/raft/raft.py:220-222 | `is_leader` holds when the known leader is this node. `OnAppendEntries` makes it hold exactly when the accepted leader is this node, and the other methods leave it as it was. |
| `Raft.RaftFiniteStateMachine.ExecuteTransition` | src/ai/backend/common/distributed/raft/raft.py:102-107 | The state becomes the new one, and that state is reported to the callback. Nothing else changes. |
| `Raft.RaftFiniteStateMachine.ResetTimeout` | src/ai/backend/common/distributed/raft/raft.py:164-165 | The elapsed time becomes 0.0, and nothing else changes. |
| `Raft.RaftFiniteStateMachine.SynchronizeTerm` | src/ai/backend/common/distributed/raft/raft.py:206-214 | The term becomes `max(current_term, term)`. Exactly when it grows, the node turns FOLLOWER and clears its vote. Otherwise nothing changes. |
| `Raft.RaftFiniteStateMachine.OnAppendEntries` | src/ai/backend/common/distributed/raft/raft.py:114-138 | Returns false iff `term < current_term`, and then nothing changes. Otherwise the term is synchronised, the caller becomes the leader and the timer is reset. |
| `Raft.RaftFiniteStateMachine.OnRequestVote` | src/ai/backend/common/distributed/raft/raft.py:140-162 | The vote is granted iff the term is higher than on entry, or equal with no vote or a vote for this candidate; a granted vote records the candidate. The timer is reset even when the request is refused. A vote already cast in that term is never changed to another candidate. |
| `Raft.RaftFiniteStateMachine.StartElection` | src/ai/backend/common/distributed/raft/raft.py:178-192 | The term grows by exactly 1 and the node votes for itself. It ends LEADER iff the granted votes plus its own reach the quorum, and FOLLOWER otherwise. |
| `Raft.RaftFiniteStateMachine.Membership` | src/ai/backend/common/distributed/raft/raft.py:232-234 | The membership counts this node. |
| `Raft.RaftFiniteStateMachine.Quorum` | src/ai/backend/common/distributed/raft/raft.py:236-238 | The quorum is a strict majority of the membership, and never more than the membership. |
| `Raft.QuorumMajority` | src/ai/backend/common/distributed/raft/raft.py:236-238 | `floor(m / 2) + 1` is more than half of `m`, and at most `m` for `m >= 1`. |
| `Raft.QuorumsIntersect` | src/ai/backend/common/distributed/raft/raft.py:236-238 | Any two quorums of the same membership share a member. |
| `Raft.CountTrue` | src/ai/backend/common/distributed/raft/raft.py:191 | `sum(results)` is at most the number of replies. |
| `Raft.ElectionOutcomes` | src/ai/backend/common/distributed/raft/raft.py:191-192 | With every peer granting, the election is won. With none granting and at least one peer, it is lost. |
| `Raft.SoleNodeWins` | src/ai/backend/common/distributed/raft/raft.py:191-192 | A node without peers wins on its own vote. |
| `RaftStorage.InMemoryLogStorage.constructor` | src/ai/backend/common/distributed/raft/storage.py:28-30 | A new log is empty. |
| `RaftStorage.InMemoryLogStorage.AppendEntries` | src/ai/backend/common/distributed/raft/storage.py:35-36 | The log becomes the old log followed by the entries. Its size grows by their number, and earlier entries are unchanged. |
| `RaftStorage.InMemoryLogStorage.Get` | src/ai/backend/common/distributed/raft/storage.py:38-43 | Returns `storage[i]` for `0 <= i < size` and `storage[size + i]` for `-size <= i < 0`, and `None` otherwise. The log is not changed. |
| `RaftStorage.InMemoryLogStorage.Size` | src/ai/backend/common/distributed/raft/storage.py:45-46 | Returns the number of entries, and the log is not changed. |
| `RaftStorage.PyIndexDefined` | src/ai/backend/common/distributed/raft/storage.py:38-43 | An index finds an entry exactly when `-len <= index < len`. |
| `RaftStorage.PyIndexNegative` | src/ai/backend/common/distributed/raft/storage.py:40 | `get(-k)` reads the same entry as `get(size - k)`. |
| `RaftStorage.PyIndexAppend` | src/ai/backend/common/distributed/raft/storage.py:35-40 | Appending keeps what every non-negative index of the old log reads. |
| `RaftStorage.PyIndexAppendTail` | src/ai/backend/common/distributed/raft/storage.py:35-40 | After appending `es`, `get(-k)` for `k <= len(es)` reads the appended entries. |

## Left out

- File I/O is not modelled: `write_to_file`, `read_from_file` and `aread_from_file`. It only adds reading and writing around the two string functions.
- `to_json_serializable_dict`, `to_json` and `freeze` are not modelled: they are JSON projection and a no-op.
- The abstract `AbstractComputePlugin` and `AbstractComputeDevice` hooks are not modelled: they are hardware and Docker hooks without logic.
- `BasePluginContext` loading and the entry-point scan are not part of this model. The scanned list is an input to `DiscoverPlugins`.
- Plugins.DiscoverPlugins: `list.sort` is a library stable sort. The model states the list it leaves, not the sorting itself, and the generator is modelled as the list it yields.
- `BinarySize` (`:m`, `:s`, `from_str`, `finite_from_str`), `json.dumps`/`json.loads` and `ResourceSlot` are not shown in the source. They are caller-supplied functions in `ResourceRecord.Codecs`, and `RoundTrip` requires their inverse properties on the values it writes.
- Text.DecimalToNat: `Decimal` is limited to natural numbers. A count amount is read only as plain decimal digits. Any other text that `Decimal()` parses is not modelled: a sign, a fraction, an exponent, underscores or surrounding whitespace. The model treats such text as a non-`KeyError` failure, which aborts the read.
- `str.upper`/`str.lower` map ASCII letters only. `RoundTrip` therefore restricts slot names to names without upper-case ASCII letters.
- `log.warning` for a skipped entry is logging, and is not modelled.
- `Path` is modelled as a string in pathlib's normal form. Other `Path` behaviour is not modelled, including the difference between a `Path` and a `str` source after `from_str`.
- The `MountTypes` and `MountPermission` enums are not shown in the source. Only BIND/VOLUME and the `ro`/`rw` values are modelled.
- ResourceRecordRoundTrip.RoundTrip: a device with an empty slot dict writes no line and so does not come back. The theorem requires at least one slot per device.
- ResourceRecordCodec.WriteToString: the nested loops of `write_to_string` are split into the helper methods `WriteHeader`, `WriteDeviceSlots` and `FormatShares`. `read_from_string` is split the same way into `ReadShares` and `AssembleRecord`.
- Raft timers are left out:
  - `main`;
  - `_wait_for_election_timeout`;
  - `_publish_heartbeat`;
  - the random `_election_timeout`.
- `asyncio.gather` in `_start_election` is not modelled as concurrency. The peers' replies are an input sequence, one per peer.
- The `on_state_changed` callback is a foreign call. It is modelled as the sequence of states handed to it.
- The uuid4 node id is randomness. It is a constructor parameter, with the peers.
- The unused arguments of `on_append_entries` and `on_request_vote` are not modelled: the log indexes, the log terms, the entries and the commit index. The code never reads them.
- The code has no `_log`, `_commit_index` or next/match indexes beyond their initialisation, so these are not modelled.
- Raft.RaftFiniteStateMachine.ResetTimeout: `_elapsed_time` is a float. It is modelled as an optional `real`, absent until the first reset, without floating-point rounding.
- Raft.RaftFiniteStateMachine.Quorum: `math.floor(membership / 2)` goes through a float. It is modelled as exact integer division, which agrees for every membership below 2 ** 53.
- `RedisLogStorage` is Redis I/O and is not modelled. The gRPC client and server, and the protocol and state-machine stubs, are not part of this model.
