/** The tenant ("server") record and the validator's result, with JavaScript truthiness made explicit. */
module Types {
  import opened Wrappers
  import opened Seqs

  /**
   * One tenant. Optional members of the TypeScript type are `Option`s;
   * `tags: None` (member absent) and `tags: Some([])` are different values.
   */
  datatype Server = Server(
    id: string,
    labelText: string,
    port: int,
    instanceDir: Option<string>,
    serverVersion: string,
    adminVersion: Option<string>,
    french: Option<bool>,
    ethiopian: Option<bool>,
    openAccess: Option<bool>,
    tags: Option<seq<string>>)

  /** One violated field rule; `Message` gives the text the validator reports for it. */
  datatype Violation = BadId | MissingLabel | MissingVersion | BadPort {

    function Message(): string {
      match this
      case BadId => "ID must be lowercase alphanumeric with hyphens"
      case MissingLabel => "Label is required"
      case MissingVersion => "Server version is required"
      case BadPort => "Port must be between 1000 and 65535"
    }

    /** Position of the rule in the order the validator checks them. */
    function Rank(): nat {
      match this
      case BadId => 0
      case MissingLabel => 1
      case MissingVersion => 2
      case BadPort => 3
    }
  }

  datatype ValidationResult = ValidationResult(valid: bool, errors: seq<Violation>)

  /** Truthiness of an optional string member: present and non-empty. */
  predicate Truthy(o: Option<string>) {
    o.Some? && o.value != ""
  }

  /** `if (server.adminVersion)`: an admin container belongs to this tenant. */
  predicate HasAdmin(s: Server) {
    Truthy(s.adminVersion)
  }

  /** An optional boolean flag as consumed: absent behaves as false. */
  predicate FlagOn(o: Option<bool>) {
    o == Some(true)
  }

  /** `server.instanceDir || server.id`: the on-disk directory name. */
  function DirName(s: Server): (d: string)
    ensures d == s.id || (s.instanceDir == Some(d) && d != "")
    ensures Truthy(s.instanceDir) ==> d == s.instanceDir.value
  {
    if Truthy(s.instanceDir) then s.instanceDir.value else s.id
  }

  /** `server.tags || []`. */
  function TagsOf(s: Server): seq<string> {
    s.tags.GetOr([])
  }

  /** `server.tags?.includes(tag) || false`. */
  predicate HasTag(s: Server, tag: string) {
    tag in TagsOf(s)
  }

  /** `servers.map(s => s.id)`. */
  function Ids(servers: seq<Server>): (ids: seq<string>)
    ensures |ids| == |servers|
    ensures forall i | 0 <= i < |servers| :: ids[i] == servers[i].id
  {
    seq(|servers|, i requires 0 <= i < |servers| => servers[i].id)
  }

  /** No two records share an id. */
  predicate UniqueIds(servers: seq<Server>) {
    forall i, j | 0 <= i < j < |servers| :: servers[i].id != servers[j].id
  }

  /** Some record carries this id. */
  predicate IdPresent(servers: seq<Server>, id: string) {
    exists i | 0 <= i < |servers| :: servers[i].id == id
  }

  /** `servers.filter(s => s.id !== id)`. */
  function WithoutId(servers: seq<Server>, id: string): seq<Server> {
    Filter(servers, (s: Server) => s.id != id)
  }
}
