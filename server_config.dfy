/**
 * The selected-server state of the query client: the server table loaded
 * from the configuration file, its default entry, and the entry currently
 * selected in memory.
 */
module ServerConfig {
  import opened Wrappers
  import opened PyDict

  /** A server's settings as the configuration file gives them; the manager
      hands them out without inspecting them. */
  datatype ServerEntry = ServerEntry(settings: seq<(string, string)>)

  /** The parsed configuration file: anything but a non-empty mapping, or a
      mapping with its optional `servers` table and `current_server` name. */
  datatype ConfigDoc =
    | NotAMapping
    | Mapping(servers: Option<Dict<string, ServerEntry>>, currentServer: Option<string>)

  datatype LoadError = FileNotFound | InvalidFormat | NoServers

  /** The configured name when it names a server, otherwise the first key. */
  function DefaultServer(servers: Dict<string, ServerEntry>, configured: Option<string>): (name: string)
    requires |servers| > 0
    ensures name in Keys(servers)
    ensures configured.Some? && configured.value in Keys(servers) ==> name == configured.value
    ensures !(configured.Some? && configured.value in Keys(servers)) ==> name == servers[0].0
  {
    if configured.Some? && configured.value in Keys(servers) then configured.value else servers[0].0
  }

  /** `_load_config`: the server table and the default server, or the error
      the constructor raises. */
  function LoadConfig(fileExists: bool, doc: ConfigDoc): (r: Result<(Dict<string, ServerEntry>, string), LoadError>)
    ensures r.Err? <==> !fileExists || doc.NotAMapping? || doc.servers.None? || doc.servers.value == []
    ensures !fileExists ==> r == Err(FileNotFound)
    ensures r.Ok? ==> r.value.0 == doc.servers.value && r.value.1 in Keys(r.value.0)
  {
    if !fileExists then Err(FileNotFound)
    else match doc
      case NotAMapping => Err(InvalidFormat)
      case Mapping(servers, current) =>
        if servers.None? || servers.value == [] then Err(NoServers)
        else Ok((servers.value, DefaultServer(servers.value, current)))
  }

  /** `get_current_server` on a server table and a selection: nothing when
      no name is selected, the name is empty, or it names no server. */
  function CurrentEntry(servers: Dict<string, ServerEntry>, current: Option<string>): (r: Option<ServerEntry>)
    ensures r.Some? <==> current.Some? && current.value != "" && current.value in Keys(servers)
    ensures r.Some? ==> Get(servers, current.value) == r
  {
    if current.None? || current.value == "" || current.value !in Keys(servers) then None
    else
      assert IndexOf(servers, current.value).Some? by {
        var i :| 0 <= i < |servers| && Keys(servers)[i] == current.value;
      }
      Get(servers, current.value)
  }

  class ServerConfigManager {
    var servers: Dict<string, ServerEntry>
    var defaultServer: Option<string>
    var currentServer: Option<string>

    /** Once loaded, the table is non-empty and both the default and the
        selection name servers in it. */
    ghost predicate Valid()
      reads this
    {
      |servers| > 0
      && defaultServer.Some? && defaultServer.value in Keys(servers)
      && currentServer.Some? && currentServer.value in Keys(servers)
    }

    /** The state `__init__` leaves: the loaded table, with the default
        server also selected. */
    constructor Loaded(table: Dict<string, ServerEntry>, default: string)
      requires |table| > 0 && default in Keys(table)
      ensures Valid()
      ensures servers == table && defaultServer == Some(default) && currentServer == Some(default)
    {
      servers := table;
      defaultServer := Some(default);
      currentServer := Some(default);
    }

    function GetCurrentServer(): (r: Option<ServerEntry>)
      reads this
      ensures r == CurrentEntry(servers, currentServer)
    {
      if currentServer.None? || currentServer.value == "" || currentServer.value !in Keys(servers) then None
      else Get(servers, currentServer.value)
    }

    /** `set_current_server`: selects a known server; an unknown name
        changes nothing. The table and the default never change. */
    method SetCurrentServer(name: string) returns (ok: bool)
      requires Valid()
      modifies this
      ensures Valid()
      ensures ok <==> name in Keys(servers)
      ensures servers == old(servers) && defaultServer == old(defaultServer)
      ensures currentServer == if ok then Some(name) else old(currentServer)
    {
      if name !in Keys(servers) {
        return false;
      }
      currentServer := Some(name);
      return true;
    }

    function ListServers(): (r: Dict<string, ServerEntry>)
      reads this
      ensures r == servers
    {
      servers
    }
  }

  /** `ServerConfigManager(config_path)`: the file's existence and its
      parsed content are the inputs. */
  method Open(fileExists: bool, doc: ConfigDoc) returns (r: Result<ServerConfigManager, LoadError>)
    ensures r.Err? <==> LoadConfig(fileExists, doc).Err?
    ensures r.Err? ==> r.error == LoadConfig(fileExists, doc).error
    ensures r.Ok? ==> fresh(r.value) && r.value.Valid()
                      && r.value.servers == LoadConfig(fileExists, doc).value.0
                      && r.value.defaultServer == Some(LoadConfig(fileExists, doc).value.1)
                      && r.value.currentServer == r.value.defaultServer
  {
    var loaded := LoadConfig(fileExists, doc);
    if loaded.Err? {
      return Err(loaded.error);
    }
    var m := new ServerConfigManager.Loaded(loaded.value.0, loaded.value.1);
    return Ok(m);
  }

  /** Selecting a server by a non-empty name makes it the current entry;
      after loading, the current entry is the default server's. */
  lemma SelectedIsCurrent(servers: Dict<string, ServerEntry>, name: string)
    requires name != "" && name in Keys(servers)
    ensures CurrentEntry(servers, Some(name)) == Get(servers, name)
    ensures Get(servers, name).Some?
  {
  }

  /** A configuration naming an unknown current server falls back to the
      first server in the table. */
  lemma UnknownDefaultFallsBack(servers: Dict<string, ServerEntry>, configured: string)
    requires |servers| > 0 && configured !in Keys(servers)
    ensures LoadConfig(true, Mapping(Some(servers), Some(configured))) == Ok((servers, servers[0].0))
  {
  }
}
