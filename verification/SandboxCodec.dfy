/** Sandbox options on their way from the judge to the sandbox process: the byte format, and the
    loops that move it through a pipe. */
module SandboxCodec {
  import TaskPool

  type Byte = x: nat | x < 256 witness 0
  type Bytes = seq<Byte>

  const TWO_63 := 0x8000_0000_0000_0000
  const TWO_64 := 0x1_0000_0000_0000_0000
  const TWO_31 := 0x8000_0000
  const TWO_32 := 0x1_0000_0000

  type Long = x: int | -TWO_63 <= x < TWO_63 witness 0
  type Int = x: int | -TWO_31 <= x < TWO_31 witness 0

  const MAX_PAYLOAD := 1_048_576

  /* ---- integers ---- */

  function LittleEndian(u: nat, n: nat): (b: Bytes)
    ensures |b| == n
  {
    if n == 0 then [] else [u % 256] + LittleEndian(u / 256, n - 1)
  }

  function FromLittleEndian(b: Bytes): nat {
    if b == [] then 0 else b[0] + 256 * FromLittleEndian(b[1..])
  }

  function Pow256(n: nat): nat { if n == 0 then 1 else 256 * Pow256(n - 1) }

  lemma {:induction false} LittleEndianRoundTrip(u: nat, n: nat)
    requires u < Pow256(n)
    ensures FromLittleEndian(LittleEndian(u, n)) == u
  {
    if n > 0 {
      LittleEndianRoundTrip(u / 256, n - 1);
      assert LittleEndian(u, n)[1..] == LittleEndian(u / 256, n - 1);
    }
  }

  /** The lowest byte comes first. */
  lemma {:induction false} ByteAt(u: nat, n: nat, k: nat)
    requires k < n
    ensures Pow256(k) > 0 && LittleEndian(u, n)[k] == u / Pow256(k) % 256
  {
    if k > 0 {
      ByteAt(u / 256, n - 1, k - 1);
      DivideTwice(u, Pow256(k - 1));
    }
  }

  lemma DivideTwice(u: nat, p: nat)
    requires p > 0
    ensures u / 256 / p == u / (256 * p)
  {
    var q, r := u / 256 / p, u / 256 % p;
    assert u / 256 == p * q + r;
    assert u == 256 * (p * q) + (256 * r + u % 256);
    assert 256 * (p * q) == (256 * p) * q;
    QuotientIs(u, 256 * p, q, 256 * r + u % 256);
  }

  lemma QuotientIs(u: nat, d: nat, q: nat, r: nat)
    requires u == d * q + r && r < d
    ensures u / d == q
  {
    var e := u / d;
    assert u == d * e + u % d;
    assert d * (e - q) == r - u % d;
    MultipleGrows(d, e - q);
  }

  lemma MultipleGrows(d: nat, x: int)
    ensures x >= 1 ==> d * x >= d
    ensures x <= -1 ==> d * x <= 0 - d
  {
    if x >= 1 { assert d * (x - 1) >= 0; }
    if x <= -1 { assert d * (-1 - x) >= 0; }
  }

  /** Eight bytes in two's complement. */
  function EncodeLong(x: Long): (b: Bytes)
    ensures |b| == 8
  {
    LittleEndian(if x < 0 then x + TWO_64 else x, 8)
  }

  function DecodeLong(b: Bytes): Long
    requires |b| == 8
  {
    var u := FromLittleEndian(b) % TWO_64;
    if u < TWO_63 then u else u - TWO_64
  }

  lemma EightBytes()
    ensures Pow256(8) == TWO_64
  {
    assert Pow256(1) == 256;
    assert Pow256(2) == 0x1_0000;
    assert Pow256(3) == 0x100_0000;
    assert Pow256(4) == 0x1_0000_0000;
    assert Pow256(5) == 0x100_0000_0000;
    assert Pow256(6) == 0x1_0000_0000_0000;
    assert Pow256(7) == 0x100_0000_0000_0000;
  }

  lemma LongRoundTrip(x: Long)
    ensures DecodeLong(EncodeLong(x)) == x
  {
    var u := if x < 0 then x + TWO_64 else x;
    EightBytes();
    hide Pow256, LittleEndian, FromLittleEndian;
    LittleEndianRoundTrip(u, 8);
  }

  /** What assigning a long to an int keeps. */
  function ToInt(x: Long): Int {
    var u := x % TWO_32;
    if u < TWO_31 then u else u - TWO_32
  }

  /* ---- records ---- */

  datatype Options = Options(
    boxdir: Bytes, command: seq<Bytes>, preserveEnv: bool, envs: seq<Bytes>,
    workdir: Bytes, input: Bytes, output: Bytes, error: Bytes,
    fdInput: Int, fdOutput: Int, fdError: Int, cpuSet: seq<Int>, uid: Int, gid: Int,
    wallTime: Long, cpuTime: Long, rss: Long, vss: Long, procNum: Int, fileNum: Int, fsize: Long, dirs: seq<Bytes>)

  /** No string or list is longer than a long can say. */
  ghost predicate Fits(o: Options) {
    && |o.boxdir| < TWO_63 && |o.workdir| < TWO_63 && |o.input| < TWO_63 && |o.output| < TWO_63 && |o.error| < TWO_63
    && StringsFit(o.command) && StringsFit(o.envs) && StringsFit(o.dirs) && |o.cpuSet| < TWO_63
  }

  ghost predicate StringsFit(ss: seq<Bytes>) {
    |ss| < TWO_63 && forall i :: 0 <= i < |ss| ==> |ss[i]| < TWO_63
  }

  predicate UidInRange(id: Int) {
    TaskPool.UID_BASE <= id < TaskPool.UID_BASE + TaskPool.UID_POOL_SIZE
  }

  function EncodeString(s: Bytes): Bytes
    requires |s| < TWO_63
  {
    EncodeLong(|s|) + s
  }

  /** The strings `ss`, and `rest` behind them. */
  ghost function StringsThen(ss: seq<Bytes>, rest: Bytes): Bytes
    requires forall i :: 0 <= i < |ss| ==> |ss[i]| < TWO_63
  {
    if ss == [] then rest else EncodeString(ss[0]) + StringsThen(ss[1..], rest)
  }

  ghost function IntsThen(xs: seq<Int>, rest: Bytes): Bytes {
    if xs == [] then rest else EncodeLong(xs[0]) + IntsThen(xs[1..], rest)
  }

  ghost function ListThen(ss: seq<Bytes>, rest: Bytes): Bytes
    requires StringsFit(ss)
  {
    EncodeLong(|ss|) + StringsThen(ss, rest)
  }

  /** The last part of the format: everything from the cpu set on, and so forth. */
  ghost function FromCpuSet(o: Options): Bytes
    requires Fits(o)
  {
    EncodeLong(|o.cpuSet|) + IntsThen(o.cpuSet, FromUid(o))
  }

  ghost function FromUid(o: Options): Bytes
    requires Fits(o)
  {
    EncodeLong(o.uid) + (EncodeLong(o.gid) + (EncodeLong(o.wallTime) + (EncodeLong(o.cpuTime) + FromRss(o))))
  }

  ghost function FromRss(o: Options): Bytes
    requires Fits(o)
  {
    EncodeLong(o.rss) + (EncodeLong(o.vss) + (EncodeLong(o.procNum) + (EncodeLong(o.fileNum) +
    (EncodeLong(o.fsize) + ListThen(o.dirs, [])))))
  }

  ghost function FromWorkdir(o: Options): Bytes
    requires Fits(o)
  {
    EncodeString(o.workdir) + (EncodeString(o.input) + (EncodeString(o.output) + (EncodeString(o.error) + FromFds(o))))
  }

  ghost function FromFds(o: Options): Bytes
    requires Fits(o)
  {
    EncodeLong(o.fdInput) + (EncodeLong(o.fdOutput) + (EncodeLong(o.fdError) + FromCpuSet(o)))
  }

  /** The format: fields in order, strings and lists preceded by their length. */
  ghost function Encoded(o: Options): Bytes
    requires Fits(o)
  {
    EncodeString(o.boxdir) + ListThen(o.command,
      EncodeLong(if o.preserveEnv then 1 else 0) + ListThen(o.envs, FromWorkdir(o)))
  }

  /* ---- writing ---- */

  /** The buffer that Serialize grows. Each push states what is still to come behind it. */
  class Writer {
    var ret: Bytes

    constructor ()
      ensures ret == []
    {
      ret := [];
    }

    method PushInt(x: Long, ghost rest: Bytes)
      modifies this
      ensures ret + rest == old(ret) + (EncodeLong(x) + rest)
    {
      ret := ret + EncodeLong(x);
    }

    method PushString(s: Bytes, ghost rest: Bytes)
      requires |s| < TWO_63
      modifies this
      ensures ret + rest == old(ret) + (EncodeString(s) + rest)
    {
      ret := ret + EncodeLong(|s|);
      ret := ret + s;
    }

    method PushStrings(ss: seq<Bytes>, ghost rest: Bytes)
      requires StringsFit(ss)
      modifies this
      ensures ret + rest == old(ret) + ListThen(ss, rest)
    {
      PushInt(|ss|, StringsThen(ss, rest));
      for i := 0 to |ss|
        invariant ret + StringsThen(ss[i..], rest) == old(ret) + ListThen(ss, rest)
      {
        assert ss[i..][1..] == ss[i + 1..];
        PushString(ss[i], StringsThen(ss[i + 1..], rest));
      }
    }

    method PushInts(xs: seq<Int>, ghost rest: Bytes)
      requires |xs| < TWO_63
      modifies this
      ensures ret + rest == old(ret) + (EncodeLong(|xs|) + IntsThen(xs, rest))
    {
      PushInt(|xs|, IntsThen(xs, rest));
      for i := 0 to |xs|
        invariant ret + IntsThen(xs[i..], rest) == old(ret) + (EncodeLong(|xs|) + IntsThen(xs, rest))
      {
        assert xs[i..][1..] == xs[i + 1..];
        PushInt(xs[i], IntsThen(xs[i + 1..], rest));
      }
    }
  }

  /** Nothing for a user id outside the pool. */
  method Serialize(o: Options) returns (ret: Bytes)
    requires Fits(o)
    ensures ret == if UidInRange(o.uid) && UidInRange(o.gid) then Encoded(o) else []
  {
    if !UidInRange(o.uid) || !UidInRange(o.gid) { return []; }
    hide EncodeLong, EncodeString, ListThen, IntsThen;
    var w := new Writer();
    w.PushString(o.boxdir,
      ListThen(o.command, EncodeLong(if o.preserveEnv then 1 else 0) + ListThen(o.envs, FromWorkdir(o))));
    w.PushStrings(o.command, EncodeLong(if o.preserveEnv then 1 else 0) + ListThen(o.envs, FromWorkdir(o)));
    w.PushInt(if o.preserveEnv then 1 else 0, ListThen(o.envs, FromWorkdir(o)));
    w.PushStrings(o.envs, FromWorkdir(o));
    w.PushString(o.workdir, EncodeString(o.input) + (EncodeString(o.output) + (EncodeString(o.error) + FromFds(o))));
    w.PushString(o.input, EncodeString(o.output) + (EncodeString(o.error) + FromFds(o)));
    w.PushString(o.output, EncodeString(o.error) + FromFds(o));
    w.PushString(o.error, FromFds(o));
    w.PushInt(o.fdInput, EncodeLong(o.fdOutput) + (EncodeLong(o.fdError) + FromCpuSet(o)));
    w.PushInt(o.fdOutput, EncodeLong(o.fdError) + FromCpuSet(o));
    w.PushInt(o.fdError, FromCpuSet(o));
    w.PushInts(o.cpuSet, FromUid(o));
    SerializeLimits(w, o);
    ret := w.ret;
    assert ret + [] == ret;
  }

  method SerializeLimits(w: Writer, o: Options)
    requires Fits(o)
    modifies w
    ensures w.ret + [] == old(w.ret) + FromUid(o)
  {
    hide EncodeLong, ListThen;
    w.PushInt(o.uid, EncodeLong(o.gid) + (EncodeLong(o.wallTime) + (EncodeLong(o.cpuTime) + FromRss(o))));
    w.PushInt(o.gid, EncodeLong(o.wallTime) + (EncodeLong(o.cpuTime) + FromRss(o)));
    w.PushInt(o.wallTime, EncodeLong(o.cpuTime) + FromRss(o));
    w.PushInt(o.cpuTime, FromRss(o));
    w.PushInt(o.rss,
      EncodeLong(o.vss) +
        (EncodeLong(o.procNum) + (EncodeLong(o.fileNum) + (EncodeLong(o.fsize) + ListThen(o.dirs, [])))));
    w.PushInt(o.vss, EncodeLong(o.procNum) + (EncodeLong(o.fileNum) + (EncodeLong(o.fsize) + ListThen(o.dirs, []))));
    w.PushInt(o.procNum, EncodeLong(o.fileNum) + (EncodeLong(o.fsize) + ListThen(o.dirs, [])));
    w.PushInt(o.fileNum, EncodeLong(o.fsize) + ListThen(o.dirs, []));
    w.PushInt(o.fsize, ListThen(o.dirs, []));
    w.PushStrings(o.dirs, []);
  }

  /* ---- reading ---- */

  /** The cursor that the constructor moves over the buffer. */
  class Reader {
    const vec: Bytes
    var cur: nat

    constructor (vec: Bytes)
      ensures this.vec == vec && Valid() && Rest() == vec
    {
      this.vec, cur := vec, 0;
      new;
      assert vec[0..] == vec;
    }

    ghost predicate Valid()
      reads this
    {
      cur <= |vec|
    }

    ghost function Rest(): Bytes
      requires Valid()
      reads this
    {
      vec[cur..]
    }

    method ReadInt(ghost x: Long, ghost rest: Bytes) returns (r: Long)
      requires Valid() && Rest() == EncodeLong(x) + rest
      modifies this
      ensures r == x && Valid() && Rest() == rest
    {
      assert vec[cur..cur + 8] == Rest()[..8] == EncodeLong(x);
      LongRoundTrip(x);
      r := DecodeLong(vec[cur..cur + 8]);
      assert vec[cur + 8..] == Rest()[8..] == rest;
      cur := cur + 8;
    }

    method ReadString(ghost s: Bytes, ghost rest: Bytes) returns (r: Bytes)
      requires |s| < TWO_63 && Valid() && Rest() == EncodeString(s) + rest
      modifies this
      ensures r == s && Valid() && Rest() == rest
    {
      hide EncodeLong;
      assert EncodeString(s) + rest == EncodeLong(|s|) + (s + rest);
      var size := ReadInt(|s|, s + rest);
      assert vec[cur..cur + size] == Rest()[..size] == s;
      r := vec[cur..cur + size];
      assert vec[cur + size..] == Rest()[size..] == rest;
      cur := cur + size;
    }

    method ReadStrings(ghost ss: seq<Bytes>, ghost rest: Bytes) returns (r: seq<Bytes>)
      requires StringsFit(ss) && Valid() && Rest() == ListThen(ss, rest)
      modifies this
      ensures r == ss && Valid() && Rest() == rest
    {
      var n := ReadInt(|ss|, StringsThen(ss, rest));
      r := [];
      for i := 0 to n
        invariant r == ss[..i] && Valid() && Rest() == StringsThen(ss[i..], rest)
      {
        assert ss[i..][1..] == ss[i + 1..] && ss[..i + 1] == ss[..i] + [ss[i]];
        var s := ReadString(ss[i], StringsThen(ss[i + 1..], rest));
        r := r + [s];
      }
    }

    method ReadInts(ghost xs: seq<Int>, ghost rest: Bytes) returns (r: seq<Int>)
      requires |xs| < TWO_63 && Valid() && Rest() == EncodeLong(|xs|) + IntsThen(xs, rest)
      modifies this
      ensures r == xs && Valid() && Rest() == rest
    {
      hide EncodeLong;
      var n := ReadInt(|xs|, IntsThen(xs, rest));
      r := [];
      assert xs[0..] == xs;
      for i := 0 to n
        invariant r == xs[..i] && Valid() && Rest() == IntsThen(xs[i..], rest)
      {
        NextInt(xs, i, rest);
        hide IntsThen;
        assert xs[..i + 1] == xs[..i] + [xs[i]];
        var x := ReadInt(xs[i], IntsThen(xs[i + 1..], rest));
        r := r + [ToInt(x)];
      }
    }
  }

  lemma NextInt(xs: seq<Int>, i: nat, rest: Bytes)
    requires i < |xs|
    ensures IntsThen(xs[i..], rest) == EncodeLong(xs[i]) + IntsThen(xs[i + 1..], rest)
  {
    assert xs[i..][1..] == xs[i + 1..];
  }

  /** The deserializing constructor, on a buffer that Serialize made: the record comes back and
      the whole buffer is used. */
  method Deserialize(vec: Bytes, ghost o: Options) returns (r: Options, ghost used: nat)
    requires Fits(o) && vec == Encoded(o)
    ensures r == o && used == |vec|
  {
    hide EncodeLong, EncodeString, ListThen, FromWorkdir;
    var d := new Reader(vec);
    var boxdir := d.ReadString(o.boxdir,
      ListThen(o.command, EncodeLong(if o.preserveEnv then 1 else 0) + ListThen(o.envs, FromWorkdir(o))));
    var command :=
      d.ReadStrings(o.command, EncodeLong(if o.preserveEnv then 1 else 0) + ListThen(o.envs, FromWorkdir(o)));
    var preserveEnv := d.ReadInt(if o.preserveEnv then 1 else 0, ListThen(o.envs, FromWorkdir(o)));
    var envs := d.ReadStrings(o.envs, FromWorkdir(o));
    r := DeserializeFiles(d, o);
    r := r.(boxdir := boxdir, command := command, preserveEnv := preserveEnv != 0, envs := envs);
    used := d.cur;
  }

  method DeserializeFiles(d: Reader, ghost o: Options) returns (r: Options)
    requires Fits(o) && d.Valid() && d.Rest() == FromWorkdir(o)
    modifies d
    ensures d.cur == |d.vec|
    ensures r == o.(boxdir := [], command := [], preserveEnv := false, envs := [])
  {
    hide EncodeLong, EncodeString, ListThen, IntsThen, FromUid;
    var workdir := d.ReadString(o.workdir,
      EncodeString(o.input) + (EncodeString(o.output) + (EncodeString(o.error) + FromFds(o))));
    var input := d.ReadString(o.input, EncodeString(o.output) + (EncodeString(o.error) + FromFds(o)));
    var output := d.ReadString(o.output, EncodeString(o.error) + FromFds(o));
    var error := d.ReadString(o.error, FromFds(o));
    var fdInput := d.ReadInt(o.fdInput, EncodeLong(o.fdOutput) + (EncodeLong(o.fdError) + FromCpuSet(o)));
    var fdOutput := d.ReadInt(o.fdOutput, EncodeLong(o.fdError) + FromCpuSet(o));
    var fdError := d.ReadInt(o.fdError, FromCpuSet(o));
    var cpuSet := d.ReadInts(o.cpuSet, FromUid(o));
    r := DeserializeLimits(d, o);
    r := r.(workdir := workdir, input := input, output := output, error := error,
            fdInput := ToInt(fdInput), fdOutput := ToInt(fdOutput), fdError := ToInt(fdError), cpuSet := cpuSet);
  }

  const NO_OPTIONS := Options([], [], false, [], [], [], [], [], -1, -1, -1, [], 65534, 65534, 0, 0, 0, 0, 0, 0, 0, [])

  method DeserializeLimits(d: Reader, ghost o: Options) returns (r: Options)
    requires Fits(o) && d.Valid() && d.Rest() == FromUid(o)
    modifies d
    ensures d.cur == |d.vec|
    ensures r == NO_OPTIONS.(uid := o.uid, gid := o.gid, wallTime := o.wallTime, cpuTime := o.cpuTime, rss := o.rss,
                             vss := o.vss, procNum := o.procNum, fileNum := o.fileNum, fsize := o.fsize, dirs := o.dirs)
  {
    hide EncodeLong, ListThen;
    var uid := d.ReadInt(o.uid, EncodeLong(o.gid) + (EncodeLong(o.wallTime) + (EncodeLong(o.cpuTime) + FromRss(o))));
    var gid := d.ReadInt(o.gid, EncodeLong(o.wallTime) + (EncodeLong(o.cpuTime) + FromRss(o)));
    var wallTime := d.ReadInt(o.wallTime, EncodeLong(o.cpuTime) + FromRss(o));
    var cpuTime := d.ReadInt(o.cpuTime, FromRss(o));
    var rss := d.ReadInt(o.rss,
      EncodeLong(o.vss) +
        (EncodeLong(o.procNum) + (EncodeLong(o.fileNum) + (EncodeLong(o.fsize) + ListThen(o.dirs, [])))));
    var vss := d.ReadInt(o.vss,
      EncodeLong(o.procNum) + (EncodeLong(o.fileNum) + (EncodeLong(o.fsize) + ListThen(o.dirs, []))));
    var procNum := d.ReadInt(o.procNum, EncodeLong(o.fileNum) + (EncodeLong(o.fsize) + ListThen(o.dirs, [])));
    var fileNum := d.ReadInt(o.fileNum, EncodeLong(o.fsize) + ListThen(o.dirs, []));
    var fsize := d.ReadInt(o.fsize, ListThen(o.dirs, []));
    var dirs := d.ReadStrings(o.dirs, []);
    r := NO_OPTIONS.(uid := ToInt(uid), gid := ToInt(gid), wallTime := wallTime, cpuTime := cpuTime, rss := rss,
      vss := vss, procNum := ToInt(procNum), fileNum := ToInt(fileNum), fsize := fsize, dirs := dirs);
  }

  /* ---- the pipe ---- */

  /** A pipe whose writer may still write. Calls move any nonzero part of what they are asked to, are
      interrupted at most `interrupts` more times, and may fail; `broken` tells that one has. */
  class Pipe {
    var data: Bytes
    var interrupts: nat
    ghost var broken: bool

    constructor (interrupts: nat)
      ensures data == [] && this.interrupts == interrupts && !broken
    {
      data, this.interrupts, broken := [], interrupts, false;
    }

    /** The number of bytes read, 0 at the end of the data, -1 for an interruption, -2 for a failure. */
    method Read(n: nat) returns (r: int, bytes: Bytes)
      requires n > 0
      modifies this
      ensures -2 <= r <= n && |bytes| == (if r < 0 then 0 else r) && old(data) == bytes + data
      ensures r == 0 ==> data == []
      ensures broken == (old(broken) || r == -2)
      ensures if r == -1 then interrupts < old(interrupts) else interrupts == old(interrupts)
    {
      var fails, now: bool := *, *;
      if fails {
        broken := true;
        return -2, [];
      }
      if interrupts > 0 && now {
        interrupts := interrupts - 1;
        return -1, [];
      }
      if data == [] { return 0, []; }
      r :| 1 <= r <= n && r <= |data|;
      bytes := data[..r];
      data := data[r..];
    }

    /** The number of bytes written, -1 for an interruption, 0 or -2 for a failure. */
    method Write(bytes: Bytes) returns (w: int)
      requires bytes != []
      modifies this
      ensures -2 <= w <= |bytes| && data == old(data) + (if w > 0 then bytes[..w] else [])
      ensures broken == (old(broken) || w == -2 || w == 0)
      ensures if w == -1 then interrupts < old(interrupts) else interrupts == old(interrupts)
    {
      var fails, now: bool := *, *;
      if fails {
        broken := true;
        w :| w == -2 || w == 0;
        return;
      }
      if interrupts > 0 && now {
        interrupts := interrupts - 1;
        return -1;
      }
      w :| 1 <= w <= |bytes|;
      data := data + bytes[..w];
    }
  }

  /** All or nothing, however the pipe cuts the data: it succeeds exactly if the data are there and no
      call fails. */
  method ReadFull(pipe: Pipe, n: nat) returns (ok: bool, buf: Bytes)
    requires !pipe.broken
    modifies pipe
    ensures ok == (|old(pipe.data)| >= n && !pipe.broken)
    ensures ok ==> buf == old(pipe.data)[..n] && pipe.data == old(pipe.data)[n..]
  {
    buf := [];
    while |buf| < n
      invariant |buf| <= n && old(pipe.data) == buf + pipe.data && !pipe.broken
      decreases n - |buf|, pipe.interrupts
    {
      var r, bytes := pipe.Read(n - |buf|);
      assert buf + (bytes + pipe.data) == (buf + bytes) + pipe.data;
      if r < 0 {
        assert bytes == [];
        if r == -1 { continue; }
        return false, buf;
      }
      if r == 0 { return false, buf; }
      buf := buf + bytes;
    }
    return true, buf;
  }

  /** Everything arrives unless a call fails; then a part of it has. */
  method WriteFull(pipe: Pipe, bytes: Bytes) returns (ok: bool)
    requires !pipe.broken
    modifies pipe
    ensures ok == !pipe.broken
    ensures ok ==> pipe.data == old(pipe.data) + bytes
    ensures old(pipe.data) <= pipe.data <= old(pipe.data) + bytes
  {
    var put := 0;
    while put < |bytes|
      invariant put <= |bytes| && pipe.data == old(pipe.data) + bytes[..put] && !pipe.broken
      decreases |bytes| - put, pipe.interrupts
    {
      var w := pipe.Write(bytes[put..]);
      if w < 0 {
        if w == -1 { continue; }
        return false;
      }
      if w == 0 { return false; }
      assert bytes[..put] + bytes[put..][..w] == bytes[..put + w];
      put := put + w;
    }
    assert bytes[..put] == bytes;
    return true;
  }

  /* ---- judge and sandbox ---- */

  lemma EncodedNotEmpty(o: Options)
    requires Fits(o)
    ensures |Encoded(o)| > 0
  {
    hide ListThen;
  }

  ghost predicate CanBeSent(o: Options)
    requires Fits(o)
  {
    UidInRange(o.uid) && UidInRange(o.gid) && |Encoded(o)| <= MAX_PAYLOAD
  }

  /** The judge's side: refuses to send nothing or too much. */
  method SendOptions(pipe: Pipe, o: Options) returns (ok: bool)
    requires Fits(o) && !pipe.broken
    modifies pipe
    ensures ok == (CanBeSent(o) && !pipe.broken)
    ensures ok ==> pipe.data == old(pipe.data) + (EncodeLong(|Encoded(o)|) + Encoded(o))
    ensures CanBeSent(o) ==>
              old(pipe.data) <= pipe.data <= old(pipe.data) + (EncodeLong(|Encoded(o)|) + Encoded(o))
    ensures !CanBeSent(o) ==> pipe.data == old(pipe.data)
  {
    hide Encoded, EncodeLong;
    EncodedNotEmpty(o);
    var vec := Serialize(o);
    if vec == [] || |vec| > MAX_PAYLOAD { return false; }
    ok := WriteFull(pipe, EncodeLong(|vec|));
    if !ok { return false; }
    ok := WriteFull(pipe, vec);
  }

  /** The sandbox's side. */
  method ReceiveOptions(pipe: Pipe, ghost o: Options) returns (ok: bool, r: Options)
    requires Fits(o) && 0 < |Encoded(o)| <= MAX_PAYLOAD && !pipe.broken
    requires pipe.data == EncodeLong(|Encoded(o)|) + Encoded(o)
    modifies pipe
    ensures ok == !pipe.broken
    ensures ok ==> r == o && pipe.data == []
  {
    hide EncodeLong, Encoded;
    ghost var sent := pipe.data;
    var header, buf;
    r := NO_OPTIONS;
    ok, header := ReadFull(pipe, 8);
    if !ok { return false, r; }
    assert header == EncodeLong(|Encoded(o)|) && pipe.data == Encoded(o);
    LongRoundTrip(|Encoded(o)|);
    var size := DecodeLong(header);
    if size <= 0 || size > MAX_PAYLOAD { return false, r; }
    ok, buf := ReadFull(pipe, size);
    if !ok { return false, r; }
    assert buf == Encoded(o);
    ghost var used;
    r, used := Deserialize(buf, o);
  }

  /** Through any pipe the sandbox rebuilds exactly the record the judge has sent. The record gets
      through exactly if user and group are in range, its encoding is at most 2^20 bytes long and no
      read or write fails. */
  method Transfer(o: Options, interrupts: nat) returns (ok: bool, r: Options, ghost broken: bool)
    requires Fits(o)
    ensures ok == (CanBeSent(o) && !broken)
    ensures ok ==> r == o
  {
    var pipe := new Pipe(interrupts);
    ok := SendOptions(pipe, o);
    r := NO_OPTIONS;
    if ok {
      assert [] + (EncodeLong(|Encoded(o)|) + Encoded(o)) == EncodeLong(|Encoded(o)|) + Encoded(o);
      ok, r := ReceiveOptions(pipe, o);
    }
    broken := pipe.broken;
  }
}
