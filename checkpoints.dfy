/**
 * The flat checkpoint store (`CP_CONFIG.check_point`): a dictionary from a
 * checkpoint name to its position and the block state it shows when the
 * machine is off. Python dictionaries keep insertion order, which `cp list`
 * and the verification walk both follow, so the store is a map together
 * with the sequence of its keys in insertion order.
 */
module CheckPoints {
  import opened Wrappers
  import opened BlockInfo

  /** One stored checkpoint: `{x, y, z, block, data}`. */
  datatype CheckPoint = CheckPoint(x: int, y: int, z: int, block: string, data: map<string, string>)

  /** A named checkpoint as the store lists it. */
  datatype Entry = Entry(name: string, point: CheckPoint)

  /** How one probe of a checkpoint turns out. */
  datatype Verdict =
    | Unreadable  // no block info arrived
    | Off         // the block and its data equal the stored ones
    | On          // a response arrived and differs from what is stored

  /**
   * The status test of `cp status` and of the verification walk, on the
   * slot a probe left behind: an empty block name is a failed probe; the
   * machine is off iff both the block and the whole attribute map are equal.
   */
  function Classify(cp: CheckPoint, r: Reading): (v: Verdict)
    ensures v == Unreadable <==> r.block == ""
    ensures v == Off <==> r.block != "" && r.block == cp.block && r.data == cp.data
  {
    if r.block == "" then Unreadable
    else if r.block == cp.block && r.data == cp.data then Off
    else On
  }

  /**
   * The verdict for a checkpoint probed while the listener saw `lines`: it
   * is unreadable exactly when no response line arrived, whatever is stored.
   */
  function VerdictOf(cp: CheckPoint, lines: seq<Info>): (v: Verdict)
    ensures v == Unreadable <==> forall i :: 0 <= i < |lines| ==> !IsResponse(lines[i])
  {
    ProbeFailsIff(lines);
    Classify(cp, ReceiveAll(Cleared, lines))
  }

  /**
   * A checkpoint is reported off exactly when some response arrived and the
   * last one to arrive carries the stored block and the stored data; with no
   * response it is unreadable, never off.
   */
  lemma VerdictOfLines(cp: CheckPoint, lines: seq<Info>, i: nat)
    requires i < |lines| && IsResponse(lines[i])
    requires forall j :: i < j < |lines| ==> !IsResponse(lines[j])
    ensures VerdictOf(cp, lines) == Off <==>
      ReadingOf(lines[i]).block == cp.block && ReadingOf(lines[i]).data == cp.data
  {
    ReceiveAllLastWins(Cleared, lines, i);
  }

  /** The outcome of `cp status <name>`. */
  datatype Status = Missing | Report(verdict: Verdict)

  /** The outcome of `cp add`. */
  datatype AddResult =
    | NameTaken    // the name is already in use
    | ProbeFailed  // no block info arrived
    | Crashed      // the `json.loads` of line 127 raised; nothing was added
    | Added

  /**
   * The key that `cmd_add` looks up in the store for preset data: the
   * command has no `json` argument, so the default `'{}'` is used as a key.
   */
  const PresetKey: string := "{}"

  /** `s` without the occurrences of `x`, in the original order. */
  function Without(s: seq<string>, x: string): (r: seq<string>)
    ensures forall y :: y in r <==> y in s && y != x
    ensures |r| <= |s|
  {
    if s == [] then [] else (if s[0] == x then [] else [s[0]]) + Without(s[1..], x)
  }

  /** In a sequence without duplicates, removing `x` removes exactly its one position. */
  lemma {:induction false} WithoutAt(s: seq<string>, i: nat)
    requires i < |s|
    requires NoDuplicates(s)
    ensures Without(s, s[i]) == s[..i] + s[i + 1..]
  {
    var x, rest := s[i], s[1..];
    if i == 0 {
      assert x !in rest by {
        forall b | 0 <= b < |rest| ensures rest[b] != x {
          assert rest[b] == s[b + 1];
        }
      }
      WithoutAbsent(rest, x);
      assert Without(s, x) == [] + Without(rest, x);
    } else {
      assert s[0] != x;
      assert rest[i - 1] == x;
      assert NoDuplicates(rest) by {
        forall a, b | 0 <= a < b < |rest| ensures rest[a] != rest[b] {
          assert rest[a] == s[a + 1] && rest[b] == s[b + 1];
        }
      }
      WithoutAt(rest, i - 1);
      assert Without(s, x) == [s[0]] + Without(rest, x);
      assert rest[..i - 1] == s[1..i];
      assert rest[i..] == s[i + 1..];
      assert s[..i] == [s[0]] + s[1..i];
    }
  }

  /** Removing an element that does not occur changes nothing. */
  lemma {:induction false} WithoutAbsent(s: seq<string>, x: string)
    requires x !in s
    ensures Without(s, x) == s
  {
    if s != [] {
      WithoutAbsent(s[1..], x);
    }
  }

  predicate NoDuplicates(s: seq<string>) {
    forall a, b :: 0 <= a < b < |s| ==> s[a] != s[b]
  }

  /** Cutting one position out of a sequence without duplicates leaves one without duplicates. */
  lemma RemoveAtKeepsNoDuplicates(s: seq<string>, i: nat)
    requires i < |s| && NoDuplicates(s)
    ensures NoDuplicates(s[..i] + s[i + 1..])
  {
    var t := s[..i] + s[i + 1..];
    forall a, b | 0 <= a < b < |t| ensures t[a] != t[b] {
      var a' := if a < i then a else a + 1;
      var b' := if b < i then b else b + 1;
      assert t[a] == s[a'] && t[b] == s[b'];
    }
  }

  /** `order` lists every key of `points` exactly once. */
  ghost predicate Indexes(order: seq<string>, points: map<string, CheckPoint>) {
    && (forall i :: 0 <= i < |order| ==> order[i] in points)
    && (forall k :: k in points ==> k in order)
    && NoDuplicates(order)
  }

  /** Removing one name from the order and from the map keeps them in step. */
  lemma RemoveKeepsIndexes(order: seq<string>, points: map<string, CheckPoint>, i: nat)
    requires i < |order| && Indexes(order, points)
    ensures Indexes(order[..i] + order[i + 1..], points - {order[i]})
  {
    var t := order[..i] + order[i + 1..];
    RemoveAtKeepsNoDuplicates(order, i);
    forall k | k in points - {order[i]} ensures k in t {
      var j :| 0 <= j < |order| && order[j] == k;
      assert j != i;
      if j < i {
        assert t[j] == k;
      } else {
        assert t[j - 1] == k;
      }
    }
    forall j | 0 <= j < |t| ensures t[j] in points - {order[i]} {
      var j' := if j < i then j else j + 1;
      assert t[j] == order[j'];
    }
  }

  class CheckPointStore {
    /** The checkpoint names in insertion order. */
    var order: seq<string>
    var points: map<string, CheckPoint>

    /** The order lists every key of the map exactly once. */
    ghost predicate Valid()
      reads this
    {
      Indexes(order, points)
    }

    constructor ()
      ensures Valid() && order == [] && points == map[]
    {
      order := [];
      points := map[];
    }

    /** The stored checkpoints in insertion order, as `for index in check_point` visits them. */
    function Entries(): (es: seq<Entry>)
      reads this
      requires Valid()
      ensures |es| == |order|
      ensures forall i :: 0 <= i < |order| ==> es[i] == Entry(order[i], points[order[i]])
    {
      EntriesOf(order, points)
    }

    /** `cmd_list`: one line per checkpoint, by name and record, in insertion order. */
    method CmdList() returns (listing: seq<Entry>)
      requires Valid()
      ensures |listing| == |order|
      ensures forall i :: 0 <= i < |listing| ==>
        listing[i].name == order[i] && order[i] in points && listing[i].point == points[order[i]]
    {
      listing := [];
      for i := 0 to |order|
        invariant |listing| == i
        invariant forall j :: 0 <= j < i ==> listing[j] == Entry(order[j], points[order[j]])
      {
        listing := listing + [Entry(order[i], points[order[i]])];
      }
    }

    /**
     * `cmd_status`: an unknown name is reported as missing and no probe is
     * sent; otherwise the checkpoint is probed and classified.
     */
    method CmdStatus(name: string, getter: BlockInfoGetter, lines: seq<Info>) returns (s: Status)
      requires Valid()
      modifies getter
      ensures name !in points ==>
        s == Missing && getter.sent == old(getter.sent) && getter.Current() == old(getter.Current())
      ensures name in points ==>
        && s == Report(VerdictOf(points[name], lines))
        && getter.sent == old(getter.sent) + [Query(points[name].x, points[name].y, points[name].z)]
        && getter.Current() == ReceiveAll(Cleared, lines)
    {
      if name in points {
        var cp := points[name];
        var failed := getter.GetBlockInfo(cp.x, cp.y, cp.z, lines);
        if failed {
          return Report(Unreadable);
        }
        s := Report(if getter.blockData == cp.data && getter.blockName == cp.block then Off else On);
      } else {
        s := Missing;
      }
    }

    /**
     * `cmd_del`: an existing name is removed from the map and from the order,
     * which otherwise stays as it was; an absent name changes nothing.
     */
    method CmdDel(name: string) returns (deleted: bool)
      requires Valid()
      modifies this
      ensures Valid()
      ensures deleted <==> name in old(points)
      ensures points == old(points) - {name}
      ensures !deleted ==> order == old(order)
      ensures deleted ==>
        exists i :: 0 <= i < |old(order)| && old(order)[i] == name && order == old(order)[..i] + old(order)[i + 1..]
    {
      if name in points {
        ghost var i :| 0 <= i < |order| && order[i] == name;
        WithoutAt(order, i);
        RemoveKeepsIndexes(order, points, i);
        order := Without(order, name);
        points := points - {name};
        deleted := true;
      } else {
        WithoutAbsent(order, name);
        deleted := false;
      }
    }

    /**
     * `cmd_add`: a used name is rejected before any probe; a failed probe is
     * rejected; when a checkpoint is literally named `{}` the preset-data
     * lookup raises and nothing is added; otherwise one entry is appended
     * with the given position and the observed block and data.
     */
    method CmdAdd(name: string, x: int, y: int, z: int, getter: BlockInfoGetter, lines: seq<Info>)
      returns (r: AddResult)
      requires Valid()
      modifies this, getter
      ensures Valid()
      ensures name in old(points) ==>
        r == NameTaken && getter.sent == old(getter.sent) && getter.Current() == old(getter.Current())
      ensures name !in old(points) ==>
        getter.sent == old(getter.sent) + [Query(x, y, z)] && getter.Current() == ReceiveAll(Cleared, lines)
      ensures name !in old(points) && ReceiveAll(Cleared, lines).block == "" ==> r == ProbeFailed
      ensures name !in old(points) && ReceiveAll(Cleared, lines).block != "" ==>
        r == (if PresetKey in old(points) then Crashed else Added)
      ensures r == Added ==>
        && order == old(order) + [name]
        && points == old(points)[name := CheckPoint(x, y, z, ReceiveAll(Cleared, lines).block,
                                                    ReceiveAll(Cleared, lines).data)]
      ensures r != Added ==> order == old(order) && points == old(points)
    {
      if name in points {
        return NameTaken;
      }
      var failed := getter.GetBlockInfo(x, y, z, lines);
      if failed {
        return ProbeFailed;
      }
      if PresetKey in points {
        // json.loads is handed a stored record instead of a string
        return Crashed;
      }
      order := order + [name];
      points := points[name := CheckPoint(x, y, z, getter.blockName, getter.blockData)];
      r := Added;
    }
  }

  /** The entries of `names`, each with its record from `points`. */
  function EntriesOf(names: seq<string>, points: map<string, CheckPoint>): (es: seq<Entry>)
    requires forall i :: 0 <= i < |names| ==> names[i] in points
    ensures |es| == |names|
    ensures forall i :: 0 <= i < |names| ==> es[i] == Entry(names[i], points[names[i]])
  {
    if names == [] then []
    else EntriesOf(names[..|names| - 1], points) + [Entry(names[|names| - 1], points[names[|names| - 1]])]
  }
}
