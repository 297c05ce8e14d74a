/**
 * The gate wrapped around the backup command (`make_callback_override`):
 * before the backup callback runs, every checkpoint is verified. In the
 * normal path a problem refuses the backup; in the override path
 * (`!!pb ignore [comment]`) the backup always runs and its comment records
 * which machines were still on.
 */
module Override {
  import opened Wrappers
  import opened BlockInfo
  import opened CheckPoints
  import opened Verification

  /** The parsed arguments of the backup command; only `comment` is touched here. */
  class CommandContext {
    var args: map<string, string>

    constructor (args: map<string, string>)
      ensures this.args == args
    {
      this.args := args;
    }
  }

  const CommentKey: string := "comment"
  const NotePrefix: string := "§e强制备份 未关机机器(§c"
  const NoteSuffix: string := "§e)"

  /** The audit note of a forced backup, naming the machines that were on. */
  function OverrideNote(offenders: string): string {
    NotePrefix + offenders + NoteSuffix
  }

  /** The note holds the offender list, unchanged, between the fixed prefix and suffix. */
  lemma OverrideNoteParts(offenders: string)
    ensures |OverrideNote(offenders)| == |NotePrefix| + |offenders| + |NoteSuffix|
    ensures OverrideNote(offenders)[..|NotePrefix|] == NotePrefix
    ensures OverrideNote(offenders)[|NotePrefix|..|NotePrefix| + |offenders|] == offenders
    ensures OverrideNote(offenders)[|NotePrefix| + |offenders|..] == NoteSuffix
  {
  }

  /**
   * The comment of a forced backup: the note alone when the command had no
   * comment, otherwise the operator's comment, one space and the note. The
   * operator's text is kept unchanged at the front.
   */
  function Annotated(comment: Option<string>, offenders: string): (c: string)
    ensures comment.None? ==> c == OverrideNote(offenders)
    ensures comment.Some? ==>
      |c| > |comment.value| && c[..|comment.value|] == comment.value && c[|comment.value|] == ' '
      && c[|comment.value| + 1..] == OverrideNote(offenders)
  {
    match comment
    case None => OverrideNote(offenders)
    case Some(text) => text + " " + OverrideNote(offenders)
  }

  /** The `comment` argument, if the command was given one: `context.get('comment', None)`. */
  function CommentOf(args: map<string, string>): (c: Option<string>)
    ensures c.Some? <==> CommentKey in args
    ensures c.Some? ==> c.value == args[CommentKey]
  {
    if CommentKey in args then Some(args[CommentKey]) else None
  }

  /**
   * Lines 176-179 of `make_callback_override`: the note alone becomes the
   * comment when there is none, otherwise it is appended after a space.
   * No other argument changes.
   */
  method AnnotateComment(ctx: CommandContext, offenders: string)
    modifies ctx
    ensures ctx.args == old(ctx.args)[CommentKey := Annotated(CommentOf(old(ctx.args)), offenders)]
  {
    var note := OverrideNote(offenders);
    var args := ctx.args;
    var comment: string;
    if CommentKey !in args {
      comment := note;
    } else {
      comment := args[CommentKey] + " " + note;
    }
    ctx.args := args[CommentKey := comment];
  }

  /**
   * `make_callback_override(source, context, ignore)`. The plain check runs
   * first in both paths (the `and` evaluates it before looking at `ignore`),
   * on the lines in `first`. With `ignore` true a problem refuses the backup
   * and asks the operator to turn the machines off; no problem forwards it
   * unchanged. With `ignore` false a second, group-mode check on the lines
   * in `second` yields the offender list, the comment is set or extended
   * with the note, and the backup is forwarded.
   */
  method MakeCallbackOverride(store: CheckPointStore, getter: BlockInfoGetter, ctx: CommandContext,
                              ignore: bool, first: seq<seq<Info>>, second: seq<seq<Info>>)
    returns (forwarded: bool, notices: seq<Notice>)
    requires store.Valid()
    requires |first| == |store.order|
    requires !ignore ==> |second| == |store.order|
    modifies getter, ctx
    ensures ignore ==> forwarded == !Wrong(Verdicts(store.Entries(), first))
    ensures ignore ==> ctx.args == old(ctx.args)
    ensures ignore ==> getter.sent == old(getter.sent) + Queries(store.Entries())
    ensures ignore ==> getter.Current() == SlotAfter(old(getter.Current()), first)
    ensures ignore ==>
      notices == NoticesOf(store.Entries(), Verdicts(store.Entries(), first)) + (if forwarded then [] else [TurnOffFirst])
    ensures !ignore ==> forwarded && notices == NoticesOf(store.Entries(), Verdicts(store.Entries(), first))
    ensures !ignore ==> getter.sent == old(getter.sent) + Queries(store.Entries()) + Queries(store.Entries())
    ensures !ignore ==> getter.Current() == SlotAfter(SlotAfter(old(getter.Current()), first), second)
    ensures !ignore ==> ctx.args == old(ctx.args)[CommentKey :=
      Annotated(CommentOf(old(ctx.args)), OffenderList(store.Entries(), Verdicts(store.Entries(), second)))]
  {
    var plain, said := Check(store, getter, first, false);
    notices := said;
    if plain.wrong && ignore {
      notices := notices + [TurnOffFirst];
      return false, notices;
    }
    assert ignore ==> notices == said + [];
    if !ignore {
      var grouped, _ := Check(store, getter, second, true);
      assert grouped.list == OffenderList(store.Entries(), Verdicts(store.Entries(), second));
      AnnotateComment(ctx, grouped.list);
    }
    forwarded := true;
  }
}
