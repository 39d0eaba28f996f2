/** The parts of a generation's Plugins that mounting reads. */
module Plugins {
  datatype Service = Service(name: string, version: int)

  /** `sound` stands for the descriptor's own checks: its id and version match the
      member, and its contract, grants, slots and model protocols are served here. */
  datatype Member = Member(
    packageId: string,
    contentHash: string,
    offers: seq<Service>,
    consumes: seq<Service>,
    modelProviders: seq<string>,
    sound: bool)

  datatype Phase = Resolve | Mount | Health

  datatype Reason =
    | DescriptorRefused
    | ProviderNotOpened
    | UntrustedProvider(provider: string, servedBy: string)
    | ProviderTaken(provider: string)
    | AlreadyProvided(service: string, holder: string)
    | NothingProvides(service: string)
    | WrongVersion(service: string, provider: string)
    | UpstreamNotMounted
    | ServiceCycle
    | ArtifactUnavailable
    | Unreported
    | HealthMismatch
    | ProviderLost(service: string, provider: string)

  datatype Failure = Failure(pluginId: string, phase: Phase, reason: Reason)

  function Ids(ms: seq<Member>): (r: seq<string>)
    ensures |r| == |ms| && forall i :: 0 <= i < |ms| ==> r[i] == ms[i].packageId
  {
    seq(|ms|, i requires 0 <= i < |ms| => ms[i].packageId)
  }

  function Named(fs: seq<Failure>): (r: seq<string>)
    ensures |r| == |fs| && forall i :: 0 <= i < |fs| ==> r[i] == fs[i].pluginId
  {
    seq(|fs|, i requires 0 <= i < |fs| => fs[i].pluginId)
  }
}
