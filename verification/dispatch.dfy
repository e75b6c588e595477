/**
  Slash-command dispatch from src/listeners/interactionCreate.ts: the
  `interactionCreate` listener forwards application commands only; the
  handler looks the command up by name in the registry, and either sends an
  error follow-up or defers the reply and then runs the command.
*/
module Dispatch {
  import opened Base

  /** discord.js `InteractionType`. */
  datatype InteractionType = Ping | ApplicationCommand | MessageComponent | ApplicationCommandAutocomplete | ModalSubmit

  /** The parts of an interaction the listener reads. */
  datatype Interaction = Interaction(kind: InteractionType, commandName: string)

  /** A registry entry; only its `name` takes part in dispatch. */
  datatype SlashCommand = SlashCommand(name: string)

  /** The calls the handler makes on the interaction and the registry, in order. */
  datatype Action =
    | FollowUp(content: string)   // interaction.followUp({ content })
    | DeferReply                  // await interaction.deferReply()
    | RunCommand(index: nat)      // registry[index].run(client, interaction)

  /** The follow-up text for an unknown command. */
  const ErrorReply: string := "An error has occurred"

  /** `k` is the first entry of the registry whose name is `name`. */
  predicate FirstMatch(registry: seq<SlashCommand>, name: string, k: nat) {
    && k < |registry|
    && registry[k].name == name
    && forall j :: 0 <= j < k ==> registry[j].name != name
  }

  /** Linear search from `from` on. */
  function FindFrom(registry: seq<SlashCommand>, name: string, from: nat): (r: Option<nat>)
    requires from <= |registry|
    ensures r.Some? ==>
      && from <= r.value < |registry|
      && registry[r.value].name == name
      && forall j :: from <= j < r.value ==> registry[j].name != name
    ensures r.None? ==> forall j :: from <= j < |registry| ==> registry[j].name != name
    decreases |registry| - from
  {
    if from == |registry| then None
    else if registry[from].name == name then Some(from)
    else FindFrom(registry, name, from + 1)
  }

  /** `Commands.find((c) => c.name === interaction.commandName)`, as the index of the entry found. */
  function Find(registry: seq<SlashCommand>, name: string): (r: Option<nat>)
    ensures r.Some? <==> exists j :: 0 <= j < |registry| && registry[j].name == name
    ensures r.Some? ==> FirstMatch(registry, name, r.value)
  {
    FindFrom(registry, name, 0)
  }

  /**
    How the awaited `deferReply` settles. It is a call into the Discord API: it
    rejects when, for instance, the interaction was already acknowledged or has
    expired.
  */
  datatype DeferResult = Acknowledged | Rejected

  /**
    `handleSlashCommand`. When the deferral rejects, the `await` throws, so the
    command never runs and the rejection leaves the listener.
  */
  function HandleSlashCommand(registry: seq<SlashCommand>, i: Interaction, defer: DeferResult): (r: seq<Action>)
    ensures (forall j :: 0 <= j < |registry| ==> registry[j].name != i.commandName) ==> r == [FollowUp(ErrorReply)]
    ensures (exists j :: 0 <= j < |registry| && registry[j].name == i.commandName) ==>
      if defer == Acknowledged then exists k :: FirstMatch(registry, i.commandName, k) && r == [DeferReply, RunCommand(k)]
      else r == [DeferReply]
  {
    match Find(registry, i.commandName)
    case None => [FollowUp(ErrorReply)]
    case Some(k) => if defer == Acknowledged then [DeferReply, RunCommand(k)] else [DeferReply]
  }

  /** The `interactionCreate` listener. */
  function OnInteraction(registry: seq<SlashCommand>, i: Interaction, defer: DeferResult): (r: seq<Action>)
    ensures i.kind != ApplicationCommand ==> r == []
  {
    if i.kind == ApplicationCommand then HandleSlashCommand(registry, i, defer) else []
  }

  /**
    A command runs exactly when the interaction is an application command, the
    registry has an entry of that name, and the deferral was acknowledged; it is
    then the first such entry, it runs once, and the reply is deferred before it
    runs. A reply is deferred only for a registered name, and never after an
    error follow-up.
  */
  lemma DispatchOrder(registry: seq<SlashCommand>, i: Interaction, defer: DeferResult)
    ensures var r := OnInteraction(registry, i, defer);
      && ((exists p :: 0 <= p < |r| && r[p].RunCommand?) <==>
            (i.kind == ApplicationCommand && defer == Acknowledged &&
             exists j :: 0 <= j < |registry| && registry[j].name == i.commandName))
      && (forall p :: 0 <= p < |r| && r[p].RunCommand? ==>
            && FirstMatch(registry, i.commandName, r[p].index)
            && (forall q :: 0 <= q < |r| && q != p ==> !r[q].RunCommand?)
            && (exists q :: 0 <= q < p && r[q] == DeferReply))
      && (DeferReply in r <==>
            (i.kind == ApplicationCommand && exists j :: 0 <= j < |registry| && registry[j].name == i.commandName))
      && (DeferReply in r ==> FollowUp(ErrorReply) !in r)
      && ((i.kind == ApplicationCommand && forall j :: 0 <= j < |registry| ==> registry[j].name != i.commandName) ==>
            r == [FollowUp(ErrorReply)])
  {
    var r := OnInteraction(registry, i, defer);
    if i.kind == ApplicationCommand && exists j :: 0 <= j < |registry| && registry[j].name == i.commandName {
      assert r[0] == DeferReply;
      if defer == Acknowledged {
        assert r[1].RunCommand?;
        forall p | 0 <= p < |r| && r[p].RunCommand?
          ensures exists q :: 0 <= q < p && r[q] == DeferReply
        {
          assert p == 1 && r[0] == DeferReply;
        }
      }
    }
  }
}
