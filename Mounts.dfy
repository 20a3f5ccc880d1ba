/** The mount specification of `src/ai/backend/agent/resources.py`: a `Mount`
    value, its `source:target:permission` string form (`Mount.__str__`) and
    the parser of that form (`Mount.from_str`).  Paths are strings; what
    `pathlib.PurePosixPath` does with them (absoluteness, the parts of a
    relative path, the normalised `str`) is written out below. */
module Mounts {
  import opened Wrappers
  import opened Text

  // ---------------------------------------------------------------- paths

  /** `Path(p).is_absolute()`. */
  predicate IsAbsolute(p: string) {
    |p| > 0 && p[0] == '/'
  }

  /** The names pathlib keeps from a list of `/`-separated segments: the
      non-empty ones other than `.`. */
  function Names(segments: seq<string>): (r: seq<string>)
    ensures |r| <= |segments|
    ensures forall i :: 0 <= i < |r| ==> IsName(r[i])
  {
    if |segments| == 0 then []
    else (if IsName(segments[0]) then [segments[0]] else []) + Names(segments[1..])
  }

  predicate IsName(s: string) {
    s != "" && s != "."
  }

  /** `Path(p).parts` of a relative path. */
  function Segments(p: string): seq<string> {
    Names(Split(p, '/'))
  }

  /** The root pathlib gives an absolute path: exactly two leading slashes
      are kept, any other number becomes one. */
  function Root(p: string): string
    requires IsAbsolute(p)
  {
    if |p| >= 2 && p[1] == '/' && (|p| == 2 || p[2] != '/') then "//" else "/"
  }

  /** `str(Path(p))`. */
  function PathStr(p: string): string {
    if IsAbsolute(p) then Root(p) + Join('/', Segments(p))
    else if Segments(p) == [] then "."
    else Join('/', Segments(p))
  }

  /** A path that pathlib leaves as written; every `Path` value prints as one. */
  predicate Canonical(p: string) {
    PathStr(p) == p
  }

  // ---------------------------------------------------------------- mounts

  datatype MountType = Bind | Volume

  datatype MountPermission = ReadOnly | ReadWrite

  /** `MountPermission.value`. */
  function PermissionValue(p: MountPermission): string {
    match p
    case ReadOnly => "ro"
    case ReadWrite => "rw"
  }

  /** `MountPermission(s)`: the member with value `s`, if there is one. */
  function PermissionOf(s: string): (r: Option<MountPermission>)
    ensures forall p :: r == Some(p) <==> PermissionValue(p) == s
  {
    if s == "ro" then Some(ReadOnly)
    else if s == "rw" then Some(ReadWrite)
    else None
  }

  datatype Mount = Mount(
    mountType: MountType,
    source: Option<string>,
    target: string,
    permission: MountPermission,
    opts: Option<map<string, string>>)

  /** The ValueErrors of `Mount.from_str`, with the value each one names. */
  datatype MountError =
    | WrongFieldCount(fields: nat)
    | SourceNotAbsolute(source: string)
    | TargetNotAbsolute(target: string)
    | UnknownPermission(value: string)

  /** `f'{self.source}'`: a missing source prints as `None`. */
  function SourceText(source: Option<string>): string {
    match source
    case Some(p) => p
    case None => "None"
  }

  /** `Mount.__str__`. */
  function MountToString(m: Mount): string {
    SourceText(m.source) + ":" + m.target + ":" + PermissionValue(m.permission)
  }

  /** The sources `from_str` accepts: absolute paths, and relative paths of
      exactly one part (volume names). */
  predicate SourceAccepted(source: string) {
    IsAbsolute(source) || |Segments(source)| == 1
  }

  /** `Mount.from_str`. */
  function MountFromString(s: string): Result<Mount, MountError> {
    var fields := Split(s, ':');
    if |fields| != 3 then Err(WrongFieldCount(|fields|))
    else
      var source, target, perm := fields[0], fields[1], fields[2];
      if !SourceAccepted(source) then Err(SourceNotAbsolute(PathStr(source)))
      else if !IsAbsolute(target) then Err(TargetNotAbsolute(PathStr(target)))
      else
        match PermissionOf(perm)
        case None => Err(UnknownPermission(perm))
        case Some(p) =>
          Ok(Mount(if IsAbsolute(source) then Bind else Volume,
                   Some(PathStr(source)), PathStr(target), p, None))
  }

  /** What holds of every mount `from_str` builds: the target is an absolute
      path, the type is BIND exactly for an absolute source and VOLUME for a
      single relative name, both paths are in pathlib's normal form, and
      there are no options. */
  predicate Inferred(m: Mount) {
    && m.opts == None
    && m.source.Some?
    && Canonical(m.source.value) && Canonical(m.target)
    && IsAbsolute(m.target)
    && (m.mountType == Bind <==> IsAbsolute(m.source.value))
    && (m.mountType == Volume ==> |Segments(m.source.value)| == 1)
  }

  /** The mounts whose string form reads back as themselves: those `from_str`
      could have built, with no `:` in either path. */
  predicate Encodable(m: Mount) {
    Inferred(m) && ':' !in m.source.value && ':' !in m.target
  }

  // ---------------------------------------------------------------- lemmas

  lemma {:induction false} NamesOfNames(ss: seq<string>)
    requires forall i :: 0 <= i < |ss| ==> IsName(ss[i])
    ensures Names(ss) == ss
  {
    if |ss| > 0 {
      NamesOfNames(ss[1..]);
      assert [ss[0]] + ss[1..] == ss;
    }
  }

  /** A piece of `s.split(sep)` holds only characters of `s` other than `sep`. */
  lemma {:induction false} SplitPieceChars(s: string, sep: char, i: nat, c: char)
    requires i < |Split(s, sep)|
    requires c in Split(s, sep)[i]
    ensures c in s && c != sep
  {
    if |s| > 0 {
      var rest := Split(s[1..], sep);
      if s[0] == sep {
        if i > 0 {
          SplitPieceChars(s[1..], sep, i - 1, c);
        }
      } else if i == 0 {
        if c != s[0] {
          SplitPieceChars(s[1..], sep, 0, c);
        }
      } else {
        SplitPieceChars(s[1..], sep, i, c);
      }
    }
  }

  /** A name pathlib keeps from `p` holds only characters of `p` other than `/`. */
  lemma {:induction false} NamesChars(ss: seq<string>, i: nat, c: char)
    requires i < |Names(ss)|
    requires c in Names(ss)[i]
    ensures exists j :: 0 <= j < |ss| && c in ss[j]
  {
    if IsName(ss[0]) {
      if i == 0 {
        assert c in ss[0];
      } else {
        NamesChars(ss[1..], i - 1, c);
        var j :| 0 <= j < |ss[1..]| && c in ss[1..][j];
        assert c in ss[j + 1];
      }
    } else {
      NamesChars(ss[1..], i, c);
      var j :| 0 <= j < |ss[1..]| && c in ss[1..][j];
      assert c in ss[j + 1];
    }
  }

  lemma SegmentChars(p: string, i: nat, c: char)
    requires i < |Segments(p)|
    requires c in Segments(p)[i]
    ensures c in p && c != '/'
  {
    NamesChars(Split(p, '/'), i, c);
    var j :| 0 <= j < |Split(p, '/')| && c in Split(p, '/')[j];
    SplitPieceChars(p, '/', j, c);
  }

  /** Normalising a path adds no character other than `/` and `.`. */
  lemma PathStrChars(p: string, c: char)
    requires c != '/' && c != '.'
    requires c in PathStr(p)
    ensures c in p
  {
    var segs := Segments(p);
    forall i | 0 <= i < |segs|
      ensures c !in p ==> c !in segs[i]
    {
      if c in segs[i] {
        SegmentChars(p, i, c);
      }
    }
    if c !in p {
      JoinNoSep('/', c, segs);
    }
  }

  lemma SegmentsOfJoin(prefix: seq<string>, segs: seq<string>)
    requires forall i :: 0 <= i < |prefix| ==> prefix[i] == ""
    requires forall i :: 0 <= i < |segs| ==> IsName(segs[i]) && '/' !in segs[i]
    ensures Segments(Join('/', prefix + segs)) == segs
  {
    var parts := prefix + segs;
    if |parts| == 0 {
      assert Split("", '/') == [""];
    } else {
      assert forall i :: 0 <= i < |parts| ==> '/' !in parts[i];
      SplitJoin('/', parts);
      NamesAppend(prefix, segs);
      NamesOfNames(segs);
      NamesOfEmpties(prefix);
    }
  }

  lemma {:induction false} NamesAppend(a: seq<string>, b: seq<string>)
    ensures Names(a + b) == Names(a) + Names(b)
  {
    if |a| > 0 {
      assert (a + b)[1..] == a[1..] + b;
      NamesAppend(a[1..], b);
    } else {
      assert a + b == b;
    }
  }

  lemma {:induction false} NamesOfEmpties(a: seq<string>)
    requires forall i :: 0 <= i < |a| ==> a[i] == ""
    ensures Names(a) == []
  {
    if |a| > 0 {
      NamesOfEmpties(a[1..]);
    }
  }

  lemma JoinWithEmptyHead(segs: seq<string>)
    ensures [] + "/" + Join('/', segs) == Join('/', [""] + segs)
             || segs == []
    ensures "/" == Join('/', ["", ""])
    ensures "//" + Join('/', segs) == Join('/', ["", ""] + segs) || segs == []
  {
    if segs != [] {
      assert ([""] + segs)[1..] == segs;
      assert (["", ""] + segs)[1..] == [""] + segs;
      assert ([""] + segs)[1..] == segs;
    }
  }

  lemma SegmentsAreNames(p: string)
    ensures forall i :: 0 <= i < |Segments(p)| ==> IsName(Segments(p)[i]) && '/' !in Segments(p)[i]
  {
    var segs := Segments(p);
    forall i | 0 <= i < |segs|
      ensures '/' !in segs[i]
    {
      if '/' in segs[i] {
        SegmentChars(p, i, '/');
      }
    }
  }

  lemma AbsoluteIdempotent(p: string)
    requires IsAbsolute(p)
    ensures IsAbsolute(PathStr(p)) && Root(PathStr(p)) == Root(p)
    ensures Segments(PathStr(p)) == Segments(p)
  {
    var segs := Segments(p);
    SegmentsAreNames(p);
    var q := PathStr(p);
    JoinWithEmptyHead(segs);
    if Root(p) == "/" {
      if segs == [] {
        assert q == Join('/', ["", ""]);
        SegmentsOfJoin(["", ""], []);
        assert ["", ""] + [] == ["", ""];
      } else {
        assert q == Join('/', [""] + segs);
        SegmentsOfJoin([""], segs);
        assert q[1] == segs[0][0];
      }
    } else {
      if segs == [] {
        assert q == Join('/', ["", "", ""]);
        SegmentsOfJoin(["", "", ""], []);
        assert ["", "", ""] + [] == ["", "", ""];
      } else {
        assert q == Join('/', ["", ""] + segs);
        SegmentsOfJoin(["", ""], segs);
        assert q[2] == segs[0][0];
      }
    }
  }

  lemma RelativeIdempotent(p: string)
    requires !IsAbsolute(p)
    ensures !IsAbsolute(PathStr(p))
    ensures Segments(PathStr(p)) == Segments(p)
  {
    var segs := Segments(p);
    SegmentsAreNames(p);
    var q := PathStr(p);
    if segs == [] {
      assert q == ".";
      SplitNoSep(".", '/');
    } else {
      SegmentsOfJoin([], segs);
      assert [] + segs == segs;
      assert q[0] == segs[0][0];
    }
  }

  /** Normalising is idempotent: `str(Path(str(Path(p)))) == str(Path(p))`. */
  lemma PathStrIdempotent(p: string)
    ensures Canonical(PathStr(p))
    ensures IsAbsolute(PathStr(p)) == IsAbsolute(p)
    ensures Segments(PathStr(p)) == Segments(p)
  {
    if IsAbsolute(p) {
      AbsoluteIdempotent(p);
    } else {
      RelativeIdempotent(p);
    }
  }

  /** The string form of a mount whose paths have no `:` splits back into
      exactly its three fields. */
  lemma FieldsOfString(m: Mount)
    requires ':' !in SourceText(m.source) && ':' !in m.target
    ensures Split(MountToString(m), ':') == [SourceText(m.source), m.target, PermissionValue(m.permission)]
  {
    var fs := [SourceText(m.source), m.target, PermissionValue(m.permission)];
    var pv := PermissionValue(m.permission);
    assert fs[1..] == [m.target, pv];
    assert fs[1..][1..] == [pv];
    assert Join(':', [m.target, pv]) == m.target + [':'] + pv;
    assert Join(':', fs) == SourceText(m.source) + [':'] + (m.target + [':'] + pv);
    assert MountToString(m) == Join(':', fs);
    SplitJoin(':', fs);
  }

  /** `from_str` refuses exactly the strings the source code checks for, in
      the order it checks them, and names the offending value. */
  lemma MountFromStringErrors(s: string)
    ensures var fields := Split(s, ':');
      && ((MountFromString(s) == Err(WrongFieldCount(|fields|))) <==> |fields| != 3)
      && (|fields| == 3 ==>
            && ((MountFromString(s) == Err(SourceNotAbsolute(PathStr(fields[0]))))
                <==> !IsAbsolute(fields[0]) && |Segments(fields[0])| != 1)
            && ((MountFromString(s) == Err(TargetNotAbsolute(PathStr(fields[1]))))
                <==> SourceAccepted(fields[0]) && !IsAbsolute(fields[1]))
            && ((MountFromString(s) == Err(UnknownPermission(fields[2])))
                <==> SourceAccepted(fields[0]) && IsAbsolute(fields[1])
                     && PermissionOf(fields[2]).None?)
            && (MountFromString(s).Ok?
                <==> SourceAccepted(fields[0]) && IsAbsolute(fields[1])
                     && PermissionOf(fields[2]).Some?))
  {
  }

  /** Every mount `from_str` returns follows the type-inference rule, and its
      permission is the one written in the third field. */
  lemma MountFromStringInfers(s: string)
    requires MountFromString(s).Ok?
    ensures Inferred(MountFromString(s).value)
    ensures PermissionValue(MountFromString(s).value.permission) == Split(s, ':')[2]
    ensures MountFromString(s).value.mountType == Volume ==>
              !IsAbsolute(Split(s, ':')[0]) && |Segments(Split(s, ':')[0])| == 1
  {
    var fields := Split(s, ':');
    var m := MountFromString(s).value;
    PathStrIdempotent(fields[0]);
    PathStrIdempotent(fields[1]);
  }

  /** `from_str(str(m)) == m` for every encodable mount. */
  lemma MountRoundTrip(m: Mount)
    requires Encodable(m)
    ensures MountFromString(MountToString(m)) == Ok(m)
  {
    FieldsOfString(m);
    var src := m.source.value;
    if !IsAbsolute(src) {
      assert PathStr(src) == Join('/', Segments(src)) == Segments(src)[0];
    }
  }

  /** Reading a mount back from its own string form changes nothing: the
      string form of a parsed mount is a fixed point of `from_str`. */
  lemma MountReparse(s: string)
    requires MountFromString(s).Ok?
    ensures MountFromString(MountToString(MountFromString(s).value)) == MountFromString(s)
  {
    var fields := Split(s, ':');
    var m := MountFromString(s).value;
    MountFromStringInfers(s);
    forall i | 0 <= i < 2
      ensures ':' !in PathStr(fields[i])
    {
      assert fields[i] == Split(s, ':')[i];
      if ':' in PathStr(fields[i]) {
        PathStrChars(fields[i], ':');
        var k :| 0 <= k < |fields[i]| && fields[i][k] == ':';
        SplitPieceChars(s, ':', i, ':');
      }
    }
    assert Encodable(m);
    MountRoundTrip(m);
  }

  /** The string form of an encodable mount has no `,` or newline when its
      paths have none, so it fits the MOUNTS line of a resource file. */
  lemma MountStringChars(m: Mount, c: char)
    requires c != ':' && c != 'r' && c != 'o' && c != 'w'
    requires c !in SourceText(m.source) && c !in m.target
    ensures c !in MountToString(m)
  {
  }
}
