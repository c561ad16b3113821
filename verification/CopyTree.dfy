/** Importing a directory tree into a bundle, and the inventory that a publication takes of it. */
module CopyTree {
  import opened Prelude

  const ENTRY_LIMIT := 16384
  const FILE_LIMIT := 4096
  const DEPTH_LIMIT := 64
  const PATH_LIMIT := 512
  const CHUNK := 65536
  const UINT64_MAX := 0xffff_ffff_ffff_ffff

  /** `Odd` is anything but a directory or a plain regular file, `Vanished` an entry that is gone when looked at. */
  datatype Node = Dir(entries: seq<Entry>) | File(bytes: nat) | Odd | Vanished

  datatype Entry = Entry(name: string, node: Node)

  predicate ComponentOk(name: string) {
    name != "" && name != "." && name != ".." && forall i :: 0 <= i < |name| ==> name[i] != '/' && name[i] != '\0'
  }

  // ----- Sizes of a tree -----

  datatype Size = Size(entries: nat, files: nat, bytes: nat)

  const Zero := Size(0, 0, 0)

  function Plus(a: Size, b: Size): Size {
    Size(a.entries + b.entries, a.files + b.files, a.bytes + b.bytes)
  }

  /** What an entry and everything below it amounts to. */
  function Weight(e: Entry): Size
    decreases e
  {
    match e.node
    case Dir(inner) => Plus(Size(1, 0, 0), Total(inner))
    case File(n) => Size(1, 1, n)
    case _ => Size(1, 0, 0)
  }

  function Total(t: seq<Entry>): Size
    decreases t
  {
    if t == [] then Zero else Plus(Total(t[..|t| - 1]), Weight(t[|t| - 1]))
  }

  lemma TotalSnoc(t: seq<Entry>, e: Entry)
    ensures Total(t + [e]) == Plus(Total(t), Weight(e))
  {
    assert (t + [e])[..|t|] == t;
  }

  lemma {:induction false} TotalGrows(t: seq<Entry>, n: nat)
    requires n <= |t|
    ensures Total(t[..n]).entries <= Total(t).entries && Total(t[..n]).files <= Total(t).files
    ensures Total(t[..n]).bytes <= Total(t).bytes
    decreases |t|
  {
    if n < |t| {
      assert t[..|t| - 1][..n] == t[..n];
      TotalGrows(t[..|t| - 1], n);
    } else {
      assert t[..n] == t;
    }
  }

  /** Every entry lies at a legal path, is a file or a directory, and directories nest no deeper than the limit. */
  predicate Shaped(t: seq<Entry>, prefix: string, depth: nat)
    decreases t
  {
    forall i :: 0 <= i < |t| ==> EntryShaped(t[i], prefix, depth)
  }

  predicate PathOk(prefix: string, name: string) {
    ComponentOk(name) && |prefix + name| <= PATH_LIMIT
  }

  predicate EntryShaped(e: Entry, prefix: string, depth: nat)
    decreases e
  {
    PathOk(prefix, e.name) &&
    match e.node
    case Dir(inner) => depth < DEPTH_LIMIT && Shaped(inner, prefix + e.name + "/", depth + 1)
    case File(_) => true
    case _ => false
  }

  // ----- The publication's inventory -----

  /** What a walk has counted so far. */
  predicate InLimits(c: Size) {
    c.entries <= ENTRY_LIMIT && c.files <= FILE_LIMIT
  }

  function Counted(c: Size, w: Size): Size {
    Size(c.entries + w.entries, c.files + w.files, c.bytes)
  }

  method InventoryEntry(e: Entry, prefix: string, depth: nat, c: Size) returns (ok: bool, r: Size)
    requires InLimits(c) && depth <= DEPTH_LIMIT
    ensures ok <==> EntryShaped(e, prefix, depth) && InLimits(Counted(c, Weight(e)))
    ensures ok ==> r == Counted(c, Weight(e))
    decreases e, 1
  {
    hide Shaped, Total, PathOk;
    r := c.(entries := c.entries + 1);
    if r.entries > ENTRY_LIMIT { return false, r; }
    if !PathOk(prefix, e.name) { return false, r; }
    match e.node {
      case Dir(inner) =>
        if depth == DEPTH_LIMIT { return false, r; }
        ok, r := InventoryTree(inner, prefix + e.name + "/", depth + 1, r);
      case File(_) =>
        if r.files == FILE_LIMIT { return false, r; }
        return true, r.(files := r.files + 1);
      case _ =>
        return false, r;
    }
  }

  /** The walk that publication takes over a directory: it counts as it goes and stops at the first limit. */
  method InventoryTree(t: seq<Entry>, prefix: string, depth: nat, c: Size) returns (ok: bool, r: Size)
    requires InLimits(c) && depth <= DEPTH_LIMIT
    ensures ok <==> Shaped(t, prefix, depth) && InLimits(Counted(c, Total(t)))
    ensures ok ==> r == Counted(c, Total(t))
    decreases t, 0
  {
    r := c;
    assert t[..|t|] == t;
    for i := 0 to |t|
      invariant Shaped(t[..i], prefix, depth) && r == Counted(c, Total(t[..i])) && InLimits(r)
    {
      hide EntryShaped, Weight;
      assert t[..i + 1] == t[..i] + [t[i]];
      TotalSnoc(t[..i], t[i]);
      TotalGrows(t, i + 1);
      ok, r := InventoryEntry(t[i], prefix, depth, r);
      if !ok { return; }
    }
    return true, r;
  }

  // ----- The import -----

  datatype Stop = Finished | Limit | Quota | Changed | Failed

  /** What the copy has consumed; `maximum` is the byte budget, zero for none. */
  predicate Budgeted(copied: nat, maximum: nat) {
    copied <= UINT64_MAX && (maximum != 0 ==> copied <= maximum)
  }

  /** Copies one file chunk by chunk; the quota is checked before a chunk is written. While the environment is `calm` no
      operation fails. */
  method CopyFile(bytes: nat, copied: nat, maximum: nat, calm: bool) returns (stop: Stop, written: nat, r: nat)
    requires Budgeted(copied, maximum)
    ensures stop.Finished? ==> written == bytes && r == copied + bytes && Budgeted(r, maximum)
    ensures !stop.Finished? ==> written <= bytes && Budgeted(copied + written, maximum)
    ensures stop.Quota? || stop.Changed? ==> !Budgeted(copied + bytes, maximum)
    ensures calm ==> !stop.Failed?
    ensures stop.Finished? || stop.Quota? || stop.Changed? || stop.Failed?
  {
    written, r := 0, copied;
    while written < bytes
      invariant written <= bytes && r == copied + written && Budgeted(r, maximum)
    {
      // A read returns any nonempty part of the chunk asked for, or fails.
      var unread: bool :| calm ==> !unread;
      if unread { return Failed, written, r; }
      var left := bytes - written;
      var count: nat :| 0 < count <= left && count <= CHUNK;
      if count > UINT64_MAX - r { return Changed, written, r; }
      r := r + count;
      if maximum != 0 && r > maximum { return Quota, written, r; }
      var part: nat :| part <= count && (calm ==> part == count);
      written := written + part;
      // A failed write may have left any part of the chunk behind.
      if part < count { return Failed, written, r; }
    }
    // The read at the end or the final synchronisation may fail as well.
    var synchronised: bool :| calm ==> synchronised;
    stop := if synchronised then Finished else Failed;
  }

  /** The tree fits the publication's limits and the byte budget, on top of what was counted before it. */
  predicate Within(t: seq<Entry>, prefix: string, depth: nat, c: Size, maximum: nat) {
    Shaped(t, prefix, depth) && Allowed(c, Total(t), maximum)
  }

  predicate Allowed(c: Size, w: Size, maximum: nat) {
    InLimits(Counted(c, w)) && Budgeted(c.bytes + w.bytes, maximum)
  }

  predicate EntryWithin(e: Entry, prefix: string, depth: nat, c: Size, maximum: nat) {
    EntryShaped(e, prefix, depth) && Allowed(c, Weight(e), maximum)
  }

  lemma WithinEmpty(prefix: string, depth: nat, c: Size, maximum: nat)
    requires Allowed(c, Zero, maximum)
    ensures Within([], prefix, depth, c, maximum) && Plus(c, Total([])) == c
  {
  }

  lemma WithinNone(d: seq<Entry>, prefix: string, depth: nat, c: Size, maximum: nat)
    requires Within(d, prefix, depth, c, maximum)
    ensures Allowed(Plus(c, Total(d)), Zero, maximum)
  {
  }

  lemma WithinSnoc(d: seq<Entry>, e: Entry, prefix: string, depth: nat, c: Size, maximum: nat)
    requires Within(d, prefix, depth, c, maximum)
    ensures Within(d + [e], prefix, depth, c, maximum) <==> EntryWithin(e, prefix, depth, Plus(c, Total(d)), maximum)
  {
    hide EntryShaped, Weight;
    TotalSnoc(d, e);
    assert (d + [e])[|d|] == e;
    assert forall i :: 0 <= i < |d| ==> (d + [e])[i] == d[i];
  }

  /** An entry that does not fit keeps the whole tree from fitting. */
  lemma WithinPrefix(t: seq<Entry>, i: nat, prefix: string, depth: nat, c: Size, maximum: nat)
    requires i < |t| && Within(t, prefix, depth, c, maximum)
    ensures EntryWithin(t[i], prefix, depth, Plus(c, Total(t[..i])), maximum)
  {
    hide EntryShaped, Weight;
    assert t[..i + 1] == t[..i] + [t[i]];
    TotalSnoc(t[..i], t[i]);
    TotalGrows(t, i + 1);
  }

  lemma DirWithin(name: string, below: seq<Entry>, prefix: string, depth: nat, c: Size, maximum: nat)
    requires PathOk(prefix, name) && depth < DEPTH_LIMIT
    ensures EntryWithin(Entry(name, Dir(below)), prefix, depth, c, maximum) <==>
            Within(below, prefix + name + "/", depth + 1, c.(entries := c.entries + 1), maximum)
    ensures Plus(c, Weight(Entry(name, Dir(below)))) == Plus(c.(entries := c.entries + 1), Total(below))
  {
    hide Shaped, Total, PathOk;
  }

  lemma FileWithin(name: string, bytes: nat, prefix: string, depth: nat, c: Size, maximum: nat)
    requires PathOk(prefix, name) && c.entries < ENTRY_LIMIT && c.files < FILE_LIMIT
    ensures EntryWithin(Entry(name, File(bytes)), prefix, depth, c, maximum) <==> Budgeted(c.bytes + bytes, maximum)
    ensures Plus(c, Weight(Entry(name, File(bytes)))) == Size(c.entries + 1, c.files + 1, c.bytes + bytes)
  {
    hide PathOk;
  }

  /** No entry fits a full count, an illegal path or a depth beyond the limit, and nothing odd ever fits. */
  lemma NotWithin(e: Entry, prefix: string, depth: nat, c: Size, maximum: nat)
    ensures c.entries >= ENTRY_LIMIT || !PathOk(prefix, e.name) || e.node.Odd? || e.node.Vanished?
            || (e.node.Dir? && depth >= DEPTH_LIMIT) || (e.node.File? && c.files >= FILE_LIMIT) ==>
            !EntryWithin(e, prefix, depth, c, maximum)
  {
    hide Shaped, PathOk;
  }

  /** The copy of a regular file; the destination may exist even if opening the source failed. */
  method ImportFile(name: string, bytes: nat, c: Size, maximum: nat, calm: bool)
    returns (stop: Stop, copy: Option<Entry>, r: Size)
    requires Budgeted(c.bytes, maximum)
    ensures stop.Finished? ==> copy == Some(Entry(name, File(bytes))) && r == c.(bytes := c.bytes + bytes) && Budgeted(r.bytes, maximum)
    ensures copy.Some? ==> copy.value.name == name && copy.value.node.File? && Budgeted(c.bytes + copy.value.node.bytes, maximum)
    ensures !stop.Finished? && !stop.Failed? ==> !Budgeted(c.bytes + bytes, maximum)
    ensures calm ==> !stop.Failed?
  {
    r := c;
    var made: bool, readable: bool :| calm ==> made && readable;
    if !made { return Failed, None, r; }
    if !readable { return Failed, Some(Entry(name, File(0))), r; }
    var written, copied;
    stop, written, copied := CopyFile(bytes, c.bytes, maximum, calm);
    copy, r := Some(Entry(name, File(written))), c.(bytes := copied);
  }

  /** One entry of the source; `copy` is what the destination holds of it, possibly incomplete. */
  method ImportEntry(e: Entry, prefix: string, depth: nat, c: Size, maximum: nat, calm: bool)
    returns (stop: Stop, copy: Option<Entry>, r: Size)
    requires Allowed(c, Zero, maximum) && depth <= DEPTH_LIMIT
    ensures copy.Some? ==> EntryWithin(copy.value, prefix, depth, c, maximum)
    ensures stop.Finished? ==> copy == Some(e) && r == Plus(c, Weight(e))
    ensures !stop.Finished? && !stop.Failed? ==> !EntryWithin(e, prefix, depth, c, maximum)
    ensures calm ==> !stop.Failed?
    decreases e, 1
  {
    hide EntryWithin, Within, Weight, Total, PathOk;
    NotWithin(e, prefix, depth, c, maximum);
    r := c.(entries := c.entries + 1);
    if r.entries > ENTRY_LIMIT { return Limit, None, r; }
    if !PathOk(prefix, e.name) { return Limit, None, r; }
    match e.node {
      case Vanished => return Changed, None, r;
      case Odd => return Limit, None, r;
      case Dir(inner) =>
        // Rejected before the directory is made: a partial import must itself satisfy the limits.
        if depth == DEPTH_LIMIT { return Limit, None, r; }
        var made: bool :| calm ==> made;
        if !made { return Failed, None, r; }
        var below;
        stop, below, r := ImportTree(inner, prefix + e.name + "/", depth + 1, r, maximum, calm);
        copy := Some(Entry(e.name, Dir(below)));
        DirWithin(e.name, below, prefix, depth, c, maximum);
        DirWithin(e.name, inner, prefix, depth, c, maximum);
      case File(bytes) =>
        if r.files == FILE_LIMIT { return Limit, None, r; }
        r := r.(files := r.files + 1);
        stop, copy, r := ImportFile(e.name, bytes, r, maximum, calm);
        FileWithin(e.name, bytes, prefix, depth, c, maximum);
        if copy.Some? { FileWithin(e.name, copy.value.node.bytes, prefix, depth, c, maximum); }
    }
  }

  /** Main result: wherever the copy stops, the partial destination is within the publication's limits and the
      budget; and unless an operation fails, it finishes exactly when the source fits, with an identical copy. */
  method ImportTree(t: seq<Entry>, prefix: string, depth: nat, c: Size, maximum: nat, calm: bool)
    returns (stop: Stop, d: seq<Entry>, r: Size)
    requires Allowed(c, Zero, maximum) && depth <= DEPTH_LIMIT
    ensures Within(d, prefix, depth, c, maximum)
    ensures stop.Finished? ==> d == t && r == Plus(c, Total(t))
    ensures calm ==> !stop.Failed? && (stop.Finished? <==> Within(t, prefix, depth, c, maximum))
    ensures !stop.Finished? && !stop.Failed? ==> !Within(t, prefix, depth, c, maximum)
    decreases t, 0
  {
    hide Within, EntryWithin, Total, Shaped, EntryShaped, Weight;
    d, r := [], c;
    WithinEmpty(prefix, depth, c, maximum);
    assert t[..|t|] == t;
    for i := 0 to |t|
      invariant d == t[..i] && r == Plus(c, Total(d)) && Within(d, prefix, depth, c, maximum)
    {
      assert t[..i + 1] == t[..i] + [t[i]];
      TotalSnoc(t[..i], t[i]);
      WithinNone(d, prefix, depth, c, maximum);
      var copy;
      ghost var before := r;
      stop, copy, r := ImportEntry(t[i], prefix, depth, r, maximum, calm);
      if copy.Some? {
        WithinSnoc(d, copy.value, prefix, depth, c, maximum);
        d := d + [copy.value];
      }
      if !stop.Finished? {
        if Within(t, prefix, depth, c, maximum) { WithinPrefix(t, i, prefix, depth, c, maximum); }
        return;
      }
    }
    stop := Finished;
  }

  const RAW := "raw/"
  const IMPORTED := "imported"

  lemma OneDirectory(d: seq<Entry>, prefix: string, name: string, depth: nat)
    requires PathOk(prefix, name) && depth < DEPTH_LIMIT && Shaped(d, prefix + name + "/", depth + 1)
    ensures Shaped([Entry(name, Dir(d))], prefix, depth)
    ensures Total([Entry(name, Dir(d))]) == Plus(Size(1, 0, 0), Total(d))
  {
    hide Total, PathOk;
    var e := Entry(name, Dir(d));
    TotalOne(e);
    assert EntryShaped(e, prefix, depth) by { hide Weight; }
  }

  lemma TotalOne(e: Entry)
    ensures Total([e]) == Weight(e)
  {
    hide Weight;
    TotalSnoc([], e);
    assert [] + [e] == [e];
  }

  lemma ImportedOk()
    ensures PathOk(RAW, IMPORTED)
  {
    assert |RAW + IMPORTED| == |RAW| + |IMPORTED|;
  }

  /** The wrapper directory counts as one entry of its own. */
  lemma Wrapped(d: seq<Entry>, maximum: nat)
    requires Within(d, RAW + IMPORTED + "/", 2, Size(1, 0, 0), maximum)
    ensures Shaped([Entry(IMPORTED, Dir(d))], RAW, 1)
    ensures InLimits(Counted(Zero, Total([Entry(IMPORTED, Dir(d))])))
  {
    hide PathOk, Shaped, Total;
    ImportedOk();
    OneDirectory(d, RAW, IMPORTED, 1);
  }

  /** An import finished or cut short can be published: its partial tree passes the inventory of the bundle. */
  method ImportThenInventory(source: seq<Entry>, maximum: nat, calm: bool) returns (stop: Stop, passes: bool)
    ensures passes && (stop.Finished? ==> Within(source, RAW + IMPORTED + "/", 2, Size(1, 0, 0), maximum))
    ensures calm ==> (stop.Finished? <==> Within(source, RAW + IMPORTED + "/", 2, Size(1, 0, 0), maximum))
  {
    hide Shaped, Total;
    var d, r;
    stop, d, r := ImportTree(source, RAW + IMPORTED + "/", 2, Size(1, 0, 0), maximum, calm);
    Wrapped(d, maximum);
    passes, r := InventoryTree([Entry(IMPORTED, Dir(d))], RAW, 1, Zero);
  }
}
