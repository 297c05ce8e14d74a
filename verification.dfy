/**
 * The verification walk (`check` in the plugin): probe every checkpoint in
 * insertion order and classify it. In the plain mode the result says
 * whether anything is wrong (a failed probe or a machine that is on); in
 * group mode it is the comma-terminated list of the machines that are on.
 */
module Verification {
  import opened BlockInfo
  import opened CheckPoints

  /** What `check` returns: a bool in plain mode, a string in group mode. */
  datatype CheckResult = Problem(wrong: bool) | Offenders(list: string)

  /** The messages the plain mode sends: a reply for an unreadable machine, a broadcast for one that is on. */
  datatype Notice = NotReadable(name: string) | NotOff(name: string) | TurnOffFirst

  /** The verdict of every checkpoint, probed in order, the i-th while the listener saw `batches[i]`. */
  function Verdicts(es: seq<Entry>, batches: seq<seq<Info>>): (vs: seq<Verdict>)
    requires |batches| == |es|
    ensures |vs| == |es|
    decreases |es|
  {
    if es == [] then []
    else
      var n := |es| - 1;
      Verdicts(es[..n], batches[..n]) + [VerdictOf(es[n].point, batches[n])]
  }

  /** The plain-mode flag, accumulated as the walk does: something is wrong once any verdict is not `Off`. */
  function Wrong(vs: seq<Verdict>): bool
    decreases |vs|
  {
    if vs == [] then false else Wrong(vs[..|vs| - 1]) || vs[|vs| - 1] != Off
  }

  /** The group-mode list: `name + ','` for each machine that is on, in order. */
  function OffenderList(es: seq<Entry>, vs: seq<Verdict>): string
    requires |es| == |vs|
    decreases |es|
  {
    if es == [] then ""
    else
      var n := |es| - 1;
      OffenderList(es[..n], vs[..n]) + OffenderFor(es[n].name, vs[n])
  }

  /** The group-mode entry for one checkpoint: only a machine that is on is listed, as its name and a comma. */
  function OffenderFor(name: string, v: Verdict): (s: string)
    ensures s == "" <==> v != On
    ensures v == On ==> s == name + ","
  {
    if v == On then name + "," else ""
  }

  /** The plain-mode messages, in order. */
  function NoticesOf(es: seq<Entry>, vs: seq<Verdict>): seq<Notice>
    requires |es| == |vs|
    decreases |es|
  {
    if es == [] then []
    else
      var n := |es| - 1;
      NoticesOf(es[..n], vs[..n]) + NoticeFor(es[n].name, vs[n])
  }

  /** The plain-mode message for one checkpoint: a failed probe is replied to, a machine that is on is broadcast. */
  function NoticeFor(name: string, v: Verdict): (ns: seq<Notice>)
    ensures |ns| <= 1
    ensures ns == [] <==> v == Off
    ensures forall k :: 0 <= k < |ns| ==> ns[k] == NotReadable(name) || ns[k] == NotOff(name)
    ensures v == Unreadable ==> ns == [NotReadable(name)]
    ensures v == On ==> ns == [NotOff(name)]
  {
    match v
    case Unreadable => [NotReadable(name)]
    case On => [NotOff(name)]
    case Off => []
  }

  /**
   * The probe's slot after a walk whose probes saw `batches`: what the
   * last batch wrote into the cleared slot, or `slot` when nothing was probed.
   */
  function SlotAfter(slot: Reading, batches: seq<seq<Info>>): Reading {
    if batches == [] then slot else ReceiveAll(Cleared, batches[|batches| - 1])
  }

  /** After the probe for `batches[i]`, the slot no longer depends on what came before. */
  lemma SlotAfterStep(slot: Reading, batches: seq<seq<Info>>, i: nat)
    requires i < |batches|
    ensures SlotAfter(slot, batches[..i + 1]) == ReceiveAll(Cleared, batches[i])
  {
    assert batches[..i + 1][i] == batches[i];
  }

  /** The queries the walk sends, one per checkpoint, in order. */
  function Queries(es: seq<Entry>): (qs: seq<Query>)
    ensures |qs| == |es|
    decreases |es|
  {
    if es == [] then [] else Queries(es[..|es| - 1]) + [Query(es[|es| - 1].point.x, es[|es| - 1].point.y, es[|es| - 1].point.z)]
  }

  /** The i-th verdict is the one read from the i-th batch. */
  lemma {:induction false} VerdictsAt(es: seq<Entry>, batches: seq<seq<Info>>, i: nat)
    requires |batches| == |es| && i < |es|
    ensures Verdicts(es, batches)[i] == VerdictOf(es[i].point, batches[i])
    decreases |es|
  {
    var n := |es| - 1;
    if i < n {
      VerdictsAt(es[..n], batches[..n], i);
    }
  }

  /** The i-th query asks for the i-th checkpoint's coordinates. */
  lemma {:induction false} QueriesAt(es: seq<Entry>, i: nat)
    requires i < |es|
    ensures Queries(es)[i] == Query(es[i].point.x, es[i].point.y, es[i].point.z)
    decreases |es|
  {
    var n := |es| - 1;
    if i < n {
      QueriesAt(es[..n], i);
    }
  }

  /** The plain mode reports no problem exactly when every checkpoint was read and is off. */
  lemma {:induction false} WrongIff(vs: seq<Verdict>)
    ensures Wrong(vs) <==> exists i :: 0 <= i < |vs| && vs[i] != Off
    decreases |vs|
  {
    if vs != [] {
      var n := |vs| - 1;
      WrongIff(vs[..n]);
      assert forall i :: 0 <= i < n ==> vs[..n][i] == vs[i];
    }
  }

  /** The group list is comma-terminated: every listed name is followed by `,`. */
  lemma {:induction false} OffenderListTerminated(es: seq<Entry>, vs: seq<Verdict>)
    requires |es| == |vs|
    ensures OffenderList(es, vs) == "" || OffenderList(es, vs)[|OffenderList(es, vs)| - 1] == ','
    decreases |es|
  {
    if es != [] {
      var n := |es| - 1;
      OffenderListTerminated(es[..n], vs[..n]);
    }
  }

  /**
   * The plain walk sends at most one message per checkpoint, never the
   * refusal to back up, and it is silent exactly when it finds no problem.
   */
  lemma {:induction false} NoticesOfShape(es: seq<Entry>, vs: seq<Verdict>)
    requires |es| == |vs|
    ensures |NoticesOf(es, vs)| <= |es|
    ensures forall k :: 0 <= k < |NoticesOf(es, vs)| ==> NoticesOf(es, vs)[k] != TurnOffFirst
    ensures NoticesOf(es, vs) == [] <==> !Wrong(vs)
    decreases |es|
  {
    if es != [] {
      var n := |es| - 1;
      NoticesOfShape(es[..n], vs[..n]);
    }
  }

  /**
   * The group list is empty exactly when no machine is on: checkpoints whose
   * probe failed are not listed.
   */
  lemma {:induction false} OffenderListEmptyIff(es: seq<Entry>, vs: seq<Verdict>)
    requires |es| == |vs|
    ensures OffenderList(es, vs) == "" <==> forall i :: 0 <= i < |vs| ==> vs[i] != On
    decreases |es|
  {
    if es != [] {
      var n := |es| - 1;
      OffenderListEmptyIff(es[..n], vs[..n]);
      var front, last := OffenderList(es[..n], vs[..n]), OffenderFor(es[n].name, vs[n]);
      assert OffenderList(es, vs) == front + last;
      assert (front + last == "") <==> (front == "" && last == "") by {
        assert |front + last| == |front| + |last|;
      }
      assert (forall i :: 0 <= i < |vs| ==> vs[i] != On) <==>
        (forall i :: 0 <= i < n ==> vs[..n][i] != On) && vs[n] != On
      by {
        assert forall i :: 0 <= i < n ==> vs[..n][i] == vs[i];
      }
    }
  }

  /**
   * The group list depends only on which machines are on: a checkpoint that
   * could not be read is left out exactly like one that is off.
   */
  lemma {:induction false} OffenderListOnlyOn(es: seq<Entry>, vs: seq<Verdict>, ws: seq<Verdict>)
    requires |es| == |vs| == |ws|
    requires forall i :: 0 <= i < |es| ==> (vs[i] == On <==> ws[i] == On)
    ensures OffenderList(es, vs) == OffenderList(es, ws)
    decreases |es|
  {
    if es != [] {
      var n := |es| - 1;
      assert forall i :: 0 <= i < n ==> vs[..n][i] == vs[i] && ws[..n][i] == ws[i];
      OffenderListOnlyOn(es[..n], vs[..n], ws[..n]);
    }
  }

  /** Names listed in group mode are problems in plain mode too; the converse fails for unreadable machines. */
  lemma OffendersAreProblems(es: seq<Entry>, vs: seq<Verdict>)
    requires |es| == |vs|
    requires OffenderList(es, vs) != ""
    ensures Wrong(vs)
  {
    OffenderListEmptyIff(es, vs);
    WrongIff(vs);
  }

  /**
   * For verdicts obtained from console lines: the plain mode reports no
   * problem iff every batch held a response, and the last response of each
   * batch shows that checkpoint's stored block and data.
   */
  lemma AllOffIff(es: seq<Entry>, batches: seq<seq<Info>>)
    requires |batches| == |es|
    ensures !Wrong(Verdicts(es, batches)) <==>
      forall i :: 0 <= i < |es| ==>
        && ReceiveAll(Cleared, batches[i]).block != ""
        && ReceiveAll(Cleared, batches[i]).block == es[i].point.block
        && ReceiveAll(Cleared, batches[i]).data == es[i].point.data
  {
    var vs := Verdicts(es, batches);
    WrongIff(vs);
    forall i | 0 <= i < |es|
      ensures vs[i] == VerdictOf(es[i].point, batches[i])
    {
      VerdictsAt(es, batches, i);
    }
  }

  /** How each accumulator of the walk grows by one checkpoint. */
  lemma WalkStep(es: seq<Entry>, vs: seq<Verdict>, i: nat)
    requires |es| == |vs| && i < |es|
    ensures Queries(es[..i + 1]) == Queries(es[..i]) + [Query(es[i].point.x, es[i].point.y, es[i].point.z)]
    ensures Wrong(vs[..i + 1]) == (Wrong(vs[..i]) || vs[i] != Off)
    ensures OffenderList(es[..i + 1], vs[..i + 1]) == OffenderList(es[..i], vs[..i]) + OffenderFor(es[i].name, vs[i])
    ensures NoticesOf(es[..i + 1], vs[..i + 1]) == NoticesOf(es[..i], vs[..i]) + NoticeFor(es[i].name, vs[i])
  {
    assert es[..i + 1][..i] == es[..i];
    assert vs[..i + 1][..i] == vs[..i];
  }

  lemma AppendAssoc<T>(a: seq<T>, b: seq<T>, c: seq<T>)
    ensures a + b + c == a + (b + c)
  {
  }

  /**
   * One step of `check`: probe the checkpoint's coordinates and compare what
   * came back with the stored block and data.
   */
  method Inspect(getter: BlockInfoGetter, cp: CheckPoint, lines: seq<Info>) returns (v: Verdict)
    modifies getter
    ensures getter.sent == old(getter.sent) + [Query(cp.x, cp.y, cp.z)]
    ensures v == VerdictOf(cp, lines)
    ensures getter.Current() == ReceiveAll(Cleared, lines)
  {
    var failed := getter.GetBlockInfo(cp.x, cp.y, cp.z, lines);
    if failed {
      v := Unreadable;
    } else if getter.blockName != cp.block || getter.blockData != cp.data {
      v := On;
    } else {
      v := Off;
    }
  }

  /**
   * `check`: probes every stored checkpoint in insertion order. A failed
   * probe sets the problem flag (and, in plain mode, is reported) and skips
   * the comparison; a mismatch sets the flag and is broadcast in plain mode
   * or listed in group mode.
   */
  method Check(store: CheckPointStore, getter: BlockInfoGetter, batches: seq<seq<Info>>, group: bool)
    returns (result: CheckResult, notices: seq<Notice>)
    requires store.Valid()
    requires |batches| == |store.order|
    modifies getter
    ensures getter.sent == old(getter.sent) + Queries(store.Entries())
    ensures group ==> result == Offenders(OffenderList(store.Entries(), Verdicts(store.Entries(), batches)))
    ensures !group ==> result == Problem(Wrong(Verdicts(store.Entries(), batches)))
    ensures notices == if group then [] else NoticesOf(store.Entries(), Verdicts(store.Entries(), batches))
    ensures getter.Current() == SlotAfter(old(getter.Current()), batches)
  {
    result, notices := Walk(getter, store.Entries(), batches, group);
  }

  /** The loop of `check` over the entries `es`, the i-th probe answered by `batches[i]`. */
  method Walk(getter: BlockInfoGetter, es: seq<Entry>, batches: seq<seq<Info>>, group: bool)
    returns (result: CheckResult, notices: seq<Notice>)
    requires |batches| == |es|
    modifies getter
    ensures getter.sent == old(getter.sent) + Queries(es)
    ensures group ==> result == Offenders(OffenderList(es, Verdicts(es, batches)))
    ensures !group ==> result == Problem(Wrong(Verdicts(es, batches)))
    ensures notices == if group then [] else NoticesOf(es, Verdicts(es, batches))
    ensures getter.Current() == SlotAfter(old(getter.Current()), batches)
  {
    ghost var vs := Verdicts(es, batches);
    var lis := "";
    var allOff := true;
    notices := [];
    for i := 0 to |es|
      invariant getter.sent == old(getter.sent) + Queries(es[..i])
      invariant group ==> lis == OffenderList(es[..i], vs[..i])
      invariant allOff == !Wrong(vs[..i])
      invariant notices == if group then [] else NoticesOf(es[..i], vs[..i])
      invariant getter.Current() == SlotAfter(old(getter.Current()), batches[..i])
    {
      WalkStep(es, vs, i);
      var cp := es[i].point;
      ghost var q := Query(cp.x, cp.y, cp.z);
      var v := Inspect(getter, cp, batches[i]);
      assert getter.sent == old(getter.sent) + (Queries(es[..i]) + [q]) by {
        AppendAssoc(old(getter.sent), Queries(es[..i]), [q]);
      }
      VerdictsAt(es, batches, i);
      SlotAfterStep(old(getter.Current()), batches, i);
      if group {
        lis := lis + OffenderFor(es[i].name, v);
      } else {
        notices := notices + NoticeFor(es[i].name, v);
      }
      allOff := allOff && v == Off;
    }
    assert es[..|es|] == es;
    assert vs[..|es|] == vs;
    assert batches[..|es|] == batches;
    if group {
      return Offenders(lis), notices;
    }
    result := Problem(!allOff);
  }
}
