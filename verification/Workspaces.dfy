/** The MCP server's open workspaces (src/mcp.ts): one handle a file, however many names reach it. */
module Workspaces {
  import opened Types

  class Handle {
    const file: string
    var open: bool

    constructor (file: string)
      ensures this.file == file && open
    {
      this.file, open := file, true;
    }

    method Close()
      modifies this
      ensures !open
    {
      open := false;
    }
  }

  class Cache {
    var byAlias: map<string, Handle>
    var byPath: map<string, Handle>
    /** Every handle a resolution ever handles. */
    ghost var handles: set<Handle>
    /** What each alias resolved to when it was first asked for since the last reset. */
    ghost var resolved: map<string, string>

    /** The open handles are the files' own, one each, and every alias is answered with one of them. */
    ghost predicate Valid()
      reads this, handles
    {
      && (forall path | path in byPath :: byPath[path] in handles && byPath[path].file == path)
      && (forall h | h in handles :: h.open <==> h.file in byPath && byPath[h.file] == h)
      && byAlias.Keys == resolved.Keys
      && (forall alias | alias in byAlias :: resolved[alias] in byPath && byAlias[alias] == byPath[resolved[alias]])
    }

    constructor ()
      ensures Valid() && handles == {} && resolved == map[]
    {
      byAlias, byPath, handles, resolved := map[], map[], {}, map[];
    }

    /**
     * `workspaceFor`, when the resolver would answer `found`: a name asked for before is answered without
     * asking again, and one that reaches a file already open shares its handle.
     */
    method WorkspaceFor(alias: string, found: Option<string>) returns (handle: Option<Handle>)
      requires Valid()
      modifies this, handles
      ensures Valid() && old(handles) <= handles && fresh(handles - old(handles))
      ensures resolved == if alias in old(resolved) || found.None? then old(resolved) else old(resolved)[alias := found.value]
      ensures handle.Some? <==> alias in resolved
      ensures handle.Some? ==> handle.value.open && handle.value.file == resolved[alias]
      ensures forall path | path in old(byPath) :: path in byPath && byPath[path] == old(byPath)[path] && byPath[path].open
      ensures forall path | path in byPath :: path in old(byPath) || (found == Some(path) && alias !in old(resolved))
    {
      if alias in byAlias {
        return Some(byAlias[alias]);
      }
      if found.None? {
        return None;
      }
      var now := new Handle(found.value);
      handles := handles + {now};
      resolved := resolved[alias := found.value];
      if found.value in byPath {
        now.Close();
        byAlias := byAlias[alias := byPath[found.value]];
      } else {
        byPath := byPath[found.value := now];
        byAlias := byAlias[alias := now];
      }
      handle := Some(byAlias[alias]);
    }

    /** `resetWorkspaceCache`: every handle is closed, and every name will be resolved again. */
    method Reset()
      requires Valid()
      modifies this, handles
      ensures Valid() && handles == old(handles) && resolved == map[] && byPath == map[]
      ensures forall h | h in handles :: !h.open
    {
      var todo := byPath.Keys;
      while todo != {}
        invariant todo <= byPath.Keys && handles == old(handles) && byPath == old(byPath)
        invariant forall path | path in byPath :: byPath[path] in handles && byPath[path].file == path
        invariant forall h | h in handles :: h.open ==> h.file in todo && byPath[h.file] == h
      {
        var path: string :| path in todo;
        byPath[path].Close();
        todo := todo - {path};
      }
      byPath, byAlias, resolved := map[], map[], map[];
    }
  }
}
