/** The access list of one session, built once from the resolved namespace and then only queried. */
module ActiveNamespace {
  import opened Wrappers
  import opened Config
  import opened Resolver
  import Text

  datatype Active = Active(name: string, acl: Acl) {
    predicate IsServerAllowed(server: string) {
      acl.AllowsServer(server)
    }

    predicate IsToolAllowed(server: string, tool: string) {
      acl.AllowsTool(server, tool)
    }

    /** Visible servers in deterministic order. */
    function AllowedServers(): (servers: seq<string>)
      ensures Text.StrictlySorted(servers) && forall s :: s in servers <==> IsServerAllowed(s)
    {
      Text.SortedNames(acl.servers)
    }
  }

  function SelectedName(selected: string): string {
    if selected == "" then DEFAULT_NAMESPACE else selected
  }

  /** None stands for the panic on a configuration that does not resolve. */
  function Activate(c: Toml, selected: string): Option<Active> {
    var name := SelectedName(selected);
    match Resolve(c, name)
    case Ok(acl) => Some(Active(name, acl))
    case Err(_) => None
  }
}
