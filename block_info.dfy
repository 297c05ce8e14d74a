/**
 * The block-information probe (`BlockInfoGetter` in the plugin): a single
 * result slot that the console listener overwrites whenever a block-info
 * response line passes by, and a query that clears the slot, sends one
 * `info block x y z` command and then reads the slot.
 *
 * The console and the 0.4 s wait are modelled as an oracle: the sequence of
 * console lines the listener receives between the reset and the final check.
 */
module BlockInfo {
  import opened Wrappers
  import opened Patterns

  /** A console event as the listener sees it: user chat or a server line. */
  datatype Info = Info(isUser: bool, content: string)

  /** The command the probe sends to the server: `info block {x} {y} {z}`. */
  datatype Query = Query(x: int, y: int, z: int)

  /** The contents of the result slot: `block_name` and `block_data`. */
  datatype Reading = Reading(block: string, data: map<string, string>)

  /** The slot as the probe leaves it before sending its query. */
  const Cleared: Reading := Reading("", map[])

  /** A line the listener accepts as a block-info response. */
  predicate IsResponse(info: Info) {
    !info.isUser && MatchBlockInfo(info.content).Some?
  }

  /** What a response line writes into the slot: the captured block id and every key=value pair. */
  function ReadingOf(info: Info): (r: Reading)
    requires IsResponse(info)
    ensures IsBlockId(r.block) && InfoPrefix + r.block <= info.content
    ensures |InfoPrefix + r.block| == |info.content| || !IsWordChar(info.content[|InfoPrefix + r.block|])
    ensures r.data == ParseData(info.content)
  {
    Reading(MatchBlockInfo(info.content).value, ParseData(info.content))
  }

  /**
   * The slot after the listener has seen one line: user chat never changes
   * it, and whatever is written is a block id.
   */
  function Receive(r: Reading, info: Info): (r': Reading)
    ensures info.isUser ==> r' == r
    ensures r' == r || IsBlockId(r'.block)
  {
    if IsResponse(info) then ReadingOf(info) else r
  }

  /**
   * The slot after the listener has seen `lines`, in order: either it is
   * untouched or it holds what one of the response lines wrote.
   */
  function ReceiveAll(r: Reading, lines: seq<Info>): (r': Reading)
    decreases |lines|
  {
    if lines == [] then r
    else
      var init := lines[..|lines| - 1];
      assert forall i :: 0 <= i < |init| ==> init[i] == lines[i];
      Receive(ReceiveAll(r, init), lines[|lines| - 1])
  }

  /** Lines that are not responses leave the slot as it was, stale contents included. */
  lemma {:induction false} ReceiveAllIgnores(r: Reading, lines: seq<Info>)
    requires forall i :: 0 <= i < |lines| ==> !IsResponse(lines[i])
    ensures ReceiveAll(r, lines) == r
    decreases |lines|
  {
    if lines != [] {
      ReceiveAllIgnores(r, lines[..|lines| - 1]);
    }
  }

  /** The last response line decides the slot; later matches overwrite earlier ones. */
  lemma {:induction false} ReceiveAllLastWins(r: Reading, lines: seq<Info>, i: nat)
    requires i < |lines| && IsResponse(lines[i])
    requires forall j :: i < j < |lines| ==> !IsResponse(lines[j])
    ensures ReceiveAll(r, lines) == ReadingOf(lines[i])
    decreases |lines|
  {
    if i < |lines| - 1 {
      ReceiveAllLastWins(r, lines[..|lines| - 1], i);
    }
  }

  /**
   * Starting from the cleared slot, the block name is still empty exactly
   * when no response line arrived: a result left over from an earlier probe
   * can never make a probe succeed.
   */
  lemma {:induction false} ProbeFailsIff(lines: seq<Info>)
    ensures ReceiveAll(Cleared, lines).block == "" <==>
      forall i :: 0 <= i < |lines| ==> !IsResponse(lines[i])
    decreases |lines|
  {
    if lines != [] {
      ProbeFailsIff(lines[..|lines| - 1]);
      var last := lines[|lines| - 1];
      if IsResponse(last) {
        assert ReceiveAll(Cleared, lines).block == ReadingOf(last).block;
      } else {
        assert forall i :: 0 <= i < |lines| - 1 ==> lines[..|lines| - 1][i] == lines[i];
      }
    }
  }

  class BlockInfoGetter {
    var blockName: string
    var blockData: map<string, string>
    /** Every query this probe has sent to the server, oldest first. */
    var sent: seq<Query>

    constructor ()
      ensures Current() == Cleared && sent == []
    {
      blockName := "";
      blockData := map[];
      sent := [];
    }

    /** The current contents of the slot. */
    function Current(): Reading
      reads this
    {
      Reading(blockName, blockData)
    }

    /**
     * The console listener (`on_info`): a server line that starts with the
     * block-info header replaces the slot; user chat and any other line
     * leave it unchanged.
     */
    method OnInfo(info: Info)
      modifies this
      ensures Current() == Receive(old(Current()), info)
      ensures !IsResponse(info) ==> Current() == old(Current())
      ensures IsResponse(info) ==> blockName == MatchBlockInfo(info.content).value
      ensures IsResponse(info) ==> blockData == ParseData(info.content)
      ensures sent == old(sent)
    {
      if !info.isUser {
        var m := MatchBlockInfo(info.content);
        if m.Some? {
          blockName := m.value;
          blockData := ParseData(info.content);
        }
      }
    }

    /**
     * `get_block_info`: clears the slot, sends exactly one query, lets the
     * listener see `lines`, and reports failure (true) iff the block name is
     * still empty, that is iff none of `lines` was a response.
     */
    method GetBlockInfo(x: int, y: int, z: int, lines: seq<Info>) returns (failed: bool)
      modifies this
      ensures sent == old(sent) + [Query(x, y, z)]
      ensures Current() == ReceiveAll(Cleared, lines)
      ensures failed <==> blockName == ""
      ensures failed <==> forall i :: 0 <= i < |lines| ==> !IsResponse(lines[i])
    {
      blockName := "";
      blockData := map[];
      sent := sent + [Query(x, y, z)];
      for i := 0 to |lines|
        invariant Current() == ReceiveAll(Cleared, lines[..i])
        invariant sent == old(sent) + [Query(x, y, z)]
      {
        assert lines[..i + 1][..i] == lines[..i];
        OnInfo(lines[i]);
      }
      assert lines[..|lines|] == lines;
      ProbeFailsIff(lines);
      failed := blockName == "";
    }
  }
}
