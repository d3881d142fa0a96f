/** The player on a written packet-entities message: the entities it leaves and what the visitor is shown. */
module WrittenEntities {
  import opened Prelude
  import opened Bits
  import opened FieldPathCodec
  import opened Entities
  import opened EntityMessages
  import opened Player

  /** What the entries of a message share in this context. */
  function SettingOf(env: Env, ctx: Context): Setting
    requires ctx.classes.Some? && ctx.serializers.Some?
  {
    Setting(Schema(env.tree, env.room, ctx.classes.value.bits, ctx.classes.value.names, ctx.serializers.value),
            env.track, BaselinesIn(ctx), ctx.interval)
  }

  /** What each entry tells, seen with the entities as that entry leaves them. */
  function CallsOf(env: Env, ctx: Context, scope: Scope, prev: int, es: seq<Entry>): seq<Call>
    requires ctx.classes.Some? && ctx.serializers.Some? && EntriesFit(SettingOf(env, ctx), ctx.container, prev, es)
    decreases |es|
  {
    if es == [] then []
    else
      var g := SettingOf(env, ctx);
      var later := ctx.(container := After(g, ctx.container, prev, es[0]));
      SameSetting(env, ctx, later.container);
      Shown(later, scope, Told(g, ctx.container, prev, es[0])) + CallsOf(env, later, scope, es[0].index, es[1..])
  }

  lemma SameSetting(env: Env, ctx: Context, c: Container)
    requires ctx.classes.Some? && ctx.serializers.Some?
    ensures SettingOf(env, ctx.(container := c)) == SettingOf(env, ctx)
  {
  }

  lemma {:induction false} EntriesAreShown(env: Env, ctx: Context, scope: Scope, prev: int, es: seq<Entry>,
      rest: BitString)
    requires HasCodes(env.tree) && ctx.classes.Some? && ctx.serializers.Some?
    requires EntriesFit(SettingOf(env, ctx), ctx.container, prev, es)
    ensures var b := EntriesBits(SettingOf(env, ctx), ctx.container, prev, es) + rest;
      EntityCalls(env, ctx, scope, |es|, prev, b) == CallsOf(env, ctx, scope, prev, es)
    decreases |es|
  {
    hide HandleDelta, ReadEntryHead, EntryBits, EntryFits, After, Told, HasCodes, BaselinesIn, Shown;
    if es != [] {
      var g, c := SettingOf(env, ctx), ctx.container;
      var later := ctx.(container := After(g, c, prev, es[0]));
      SameSetting(env, ctx, later.container);
      var more := EntriesBits(g, later.container, es[0].index, es[1..]) + rest;
      assert EntriesBits(g, c, prev, es) + rest == EntryBits(g, c, prev, es[0]) + more;
      EntryIsRead(g, c, prev, es[0], more);
      EntriesAreShown(env, later, scope, es[0].index, es[1..], rest);
    }
  }

  /** A written message, whatever pads it, does to the entities what its entries say and nothing else, and the visitor
      is shown what they tell, each with the entities as it leaves them. */
  lemma PacketEntitiesIsRead(env: Env, ctx: Context, scope: Scope, es: seq<Entry>, padding: BitString)
    requires HasCodes(env.tree) && ctx.classes.Some? && ctx.serializers.Some?
    requires EntriesFit(SettingOf(env, ctx), ctx.container, -1, es)
    ensures var g := SettingOf(env, ctx);
      var m := PacketEntities(|es|, EntriesBits(g, ctx.container, -1, es) + padding);
      && ApplyMessage(env, ctx, false, m) == Some(ctx.(container := AfterAll(g, ctx.container, -1, es)))
      && MessageCalls(env, ctx, false, m, scope) == [OnPacket(See(ctx, scope), m)] + CallsOf(env, ctx, scope, -1, es)
  {
    hide HandleEntries, EntriesBits, EntriesFit, AfterAll, CallsOf, EntityCalls, HasCodes, BaselinesIn, See;
    var g := SettingOf(env, ctx);
    MessageIsRead(g, ctx.container, -1, es, padding);
    EntriesAreShown(env, ctx, scope, -1, es, padding);
  }
}
