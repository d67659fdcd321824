/** `LeasePolicy`: the requested parameters of a lease. Its three properties are mutable
    and callers set them after construction (`new LeasePolicy { Name = …, … }` is modelled
    as construction followed by the setters). */
module LeasePolicies {
  import opened Wrappers
  import opened Time

  /** `DefaultLeaseDuration` of all three providers: 59 seconds. */
  const DefaultLeaseDuration: Span := 59 * TicksPerSecond

  class LeasePolicy {
    /** `Name`; the setter stores any value, `null` (None) included. */
    var name: Option<string>
    /** `ActorName`: diagnostic only. */
    var actorName: Option<string>
    /** `Duration` in ticks; absent means "use the provider's default". */
    var duration: Option<Span>

    /** `LeasePolicy(string? name)`: a null name is replaced by a generated one
        (`Guid.NewGuid()`, supplied here as `generatedName`); any other value, the
        empty string included, is kept as given. */
    constructor (name: Option<string>, generatedName: string)
      ensures this.name == Some(name.GetOr(generatedName))
      ensures name.Some? ==> this.name == name
      ensures name.None? ==> this.name == Some(generatedName)
      ensures actorName == None && duration == None
    {
      this.name := Some(name.GetOr(generatedName));
      actorName := None;
      duration := None;
    }

    /** The `Name` setter: no defaulting, the other two properties are untouched. */
    method SetName(value: Option<string>)
      modifies this
      ensures name == value
      ensures actorName == old(actorName) && duration == old(duration)
    {
      name := value;
    }

    method SetActorName(value: Option<string>)
      modifies this
      ensures actorName == value
      ensures name == old(name) && duration == old(duration)
    {
      actorName := value;
    }

    method SetDuration(value: Option<Span>)
      modifies this
      ensures duration == value
      ensures name == old(name) && actorName == old(actorName)
    {
      duration := value;
    }
  }

  /** `new LeasePolicy { ActorName = a, Duration = d, Name = n }`: construct with a null
      name (which generates one) and then assign the three properties in that order. */
  method NewPolicy(actorName: Option<string>, duration: Option<Span>, name: Option<string>, generatedName: string)
    returns (p: LeasePolicy)
    ensures fresh(p)
    ensures p.name == name && p.actorName == actorName && p.duration == duration
  {
    p := new LeasePolicy(None, generatedName);
    p.SetActorName(actorName);
    p.SetDuration(duration);
    p.SetName(name);
  }
}
