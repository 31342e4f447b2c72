/** The rows of wg-schema.sql and the whole database as one value.

    A table is a map from its BIGSERIAL id to the row, beside the next id of its sequence.
    Secrets stand for their own SHA-256 hashes and are drawn from a sequence too, so that every
    generated secret is fresh. Points in time are numbers. */
module Model {
  import opened Text
  import opened Cidr

  datatype Role = HubRole | DeviceRole

  datatype Hub = Hub(id: nat, slug: string, pubkey: string, endpoint: string, wgIp: HostText,
                     mesh: CidrText, bound: Option<nat>, routes: seq<CidrText>)
  {
    /** WGHub.Configured. */
    predicate Configured() {
      pubkey != ""
    }
  }

  datatype Site = Site(hub: nat, slug: string, sIndex: nat, publicIp: string, lan: string)

  /** consumedBy stands for both consumed_at and consumed_by_device_id, which are set together. */
  datatype Token = Token(secret: nat, role: Role, hub: Option<nat>, expires: Option<nat>,
                         consumedBy: Option<nat>, revoked: bool)

  datatype Device = Device(id: nat, hub: nat, site: nat, dIndex: nat, ip: HostText, pubkey: string,
                           hostname: string, hostId: string, lanEndpoint: string, secret: nat,
                           expires: Option<nat>, egress: Option<nat>, isolated: bool,
                           created: nat, lastSeen: Option<nat>, removed: bool)
  {
    predicate Live() {
      !removed
    }
  }

  datatype Link = Link(a: nat, b: nat)

  datatype State = State(hubs: map<nat, Hub>, sites: map<nat, Site>, tokens: map<nat, Token>,
                         devices: map<nat, Device>, links: map<nat, Link>,
                         nextHub: nat, nextSite: nat, nextToken: nat, nextDevice: nat, nextLink: nat,
                         nextSecret: nat)

  const INITIAL := State(map[], map[], map[], map[], map[], 1, 1, 1, 1, 1, 1)

  /** The rows of a table in id order: SELECT ... ORDER BY id. */
  function Listing<T>(m: map<nat, T>, n: nat): (rows: seq<T>)
    ensures forall i | i in m && i < n :: m[i] in rows
    ensures forall r | r in rows :: exists i :: i in m && i < n && m[i] == r
  {
    if n == 0 then [] else
      Listing(m, n - 1) + if n - 1 in m then [m[n - 1]] else []
  }

  /** The lowest id below n whose row satisfies p: SELECT ... ORDER BY id LIMIT 1. */
  function First<T>(m: map<nat, T>, n: nat, p: T -> bool): (r: Option<nat>)
    ensures r.Some? ==> r.value < n && r.value in m && p(m[r.value])
    ensures r.Some? ==> forall i | i in m && i < r.value :: !p(m[i])
    ensures r.None? ==> forall i | i in m && i < n :: !p(m[i])
  {
    if n == 0 then None else
      var r := First(m, n - 1, p);
      if r.None? && n - 1 in m && p(m[n - 1]) then Some(n - 1) else r
  }

  /** What a registering device reports, after trimming: lan is lanCIDRNetwork of its first LAN
      address, observed the endpoint the server saw. */
  datatype RegisterInput = RegisterInput(secret: nat, pubkey: string, hostname: string, hostId: string,
                                         publicIp: string, lan: string, lanEndpoint: string,
                                         observed: string, isolated: bool, siteSlug: string)

  datatype RegisterError =
    | BadPubkey | TokenInvalid | TokenExpired | TokenRevoked | TokenNoHub | TokenAlreadyBound
    | PubkeyTaken | HubAlreadyBound | HubNotConfigured | BadMesh | SiteExhausted
    | SiteSlotsExhausted | UniqueViolation

  datatype Outcome = Registered(device: nat, role: Role) | Refused(error: RegisterError)
}
