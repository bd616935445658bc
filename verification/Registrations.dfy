/** The registrations table (src/registrations/repo.rs, src/registrations/kind.rs). */
module Registrations {
  import opened AuthSpecs

  datatype Kind = Tool | Model | Infra

  datatype Egress = Direct | Proxied

  datatype Timeouts = Timeouts(requestSeconds: nat, idleSeconds: nat)

  /** One row, without its key. Metadata is kept as its JSON text. */
  datatype Registration = Registration(
    kind: Kind, description: string, upstream: string, auth: AuthSpec, egress: Egress, timeouts: Timeouts,
    bodyLimit: nat, metadata: string, seed: bool, disabled: bool, createdAt: int, updatedAt: int)

  type Table = map<string, Registration>

  /** INSERT ... ON CONFLICT(name) DO UPDATE: a conflict keeps `kind` and `createdAt`. */
  function Upserted(t: Table, name: string, r: Registration): Table
  {
    t[name := if name in t then r.(kind := t[name].kind, createdAt := t[name].createdAt) else r]
  }
}
