/** The inbound-message handler: every event is normalised into a record, and the
    record is handed to the command dispatcher.
 */
module Upsert {
  import opened Values
  import opened Text
  import Msg
  import opened Responder
  import Cases

  /** What handling one event amounts to: nothing, a raise during normalisation, or
      the effects the dispatcher issues for the record. */
  datatype Handling =
    | Ignored
    | Crashed(fault: Msg.Fault)
    | Dispatched(record: Msg.Record, effects: seq<Effect>)

  /** Handles one event. An event without a payload is dropped before anything else;
      any record that normalisation produces is dispatched, whether or not its body
      starts with the prefix. */
  function HandleEvent(ev: Msg.Event, cfg: Msg.Config, decodeUser: string -> Option<string>,
                       world: Cases.World): (h: Handling)
    ensures h.Ignored? <==> ev.message.None?
    ensures h.Crashed? <==>
      ev.message.Some? && (decodeUser(Msg.SenderId(ev)).None? || ev.message.value.Untyped?)
    ensures h.Dispatched? ==>
      && Msg.Normalize(ev, cfg, decodeUser) == Msg.Ready(h.record)
      && h.record.cmd == Msg.Cmd(h.record.body, cfg.prefix)
      && h.record.args == Msg.Args(h.record.body, cfg.splitter)
      && h.effects == Cases.Dispatch(h.record, world)
  {
    match Msg.Normalize(ev, cfg, decodeUser)
    case Skipped => Ignored
    case Threw(fault) => Crashed(fault)
    case Ready(record) =>
      Dispatched(record, Cases.Dispatch(record, world))
  }

  /** An event whose body names a command the switch does not know is dispatched with no effect. */
  lemma UnknownCommandHasNoEffect(ev: Msg.Event, cfg: Msg.Config, decodeUser: string -> Option<string>,
                                  world: Cases.World)
    requires ev.message.Some? && !ev.message.value.Untyped? && decodeUser(Msg.SenderId(ev)).Some?
    requires Msg.Cmd(Msg.Body(ev.message.value), cfg.prefix) !in Cases.KnownCommands
    ensures HandleEvent(ev, cfg, decodeUser, world).Dispatched?
    ensures HandleEvent(ev, cfg, decodeUser, world).effects == []
  {
    var h := HandleEvent(ev, cfg, decodeUser, world);
    assert h.record.body == Msg.Body(ev.message.value);
    Cases.UnknownCommandIsIgnored(h.record, world);
  }

  /** A conversation whose text is the prefix alone names no command and has no effect. */
  lemma PrefixAloneDoesNothing(ev: Msg.Event, cfg: Msg.Config, decodeUser: string -> Option<string>,
                               world: Cases.World, text: string)
    requires ev.message == Some(Msg.Conversation(text)) && Trim(text) == cfg.prefix
    requires decodeUser(Msg.SenderId(ev)).Some?
    ensures HandleEvent(ev, cfg, decodeUser, world).Dispatched?
    ensures HandleEvent(ev, cfg, decodeUser, world).effects == []
  {
    var h := HandleEvent(ev, cfg, decodeUser, world);
    assert h.record.body == text;
    Msg.PrefixAloneIsEmptyCmd(text, cfg.prefix);
    assert h.record.cmd == "";
    Cases.EmptyNameIsIgnored(h.record, world);
  }

  /** The dispatcher does not look at `isCommand`: the word `ping` sent without the
      prefix is answered with `Pong!` just like `!ping`. */
  lemma UnprefixedPingIsAnswered(ev: Msg.Event, decodeUser: string -> Option<string>, world: Cases.World)
    requires ev.message == Some(Msg.Conversation("ping"))
    requires decodeUser(Msg.SenderId(ev)).Some?
    ensures var h := HandleEvent(ev, Msg.DefaultConfig, decodeUser, world);
      h.Dispatched? && !h.record.isCommand && h.effects == [Reply(Cases.Pong)]
  {
    var h := HandleEvent(ev, Msg.DefaultConfig, decodeUser, world);
    assert h.record.body == "ping";
    Msg.PlainPing();
    assert h.record.cmd == "ping";
    Cases.PingAnswersPong(h.record, world);
  }
}
