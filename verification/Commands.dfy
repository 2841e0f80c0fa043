/** The argument vector `SpireService` runs for `create_entry`, and a decoder that reads it the way
    a flag parser does: from left to right, each valued flag taking the next argument as it is. */
module Commands {
  import opened Numerals
  import opened Wrappers

  datatype CreateRequest = CreateRequest(
    spiffeId: string, parentId: string, selectors: seq<string>, ttl: int, admin: bool, dnsNames: seq<string>)

  const SERVER_BINARY := "/opt/spire/bin/spire-server"
  const SOCKET_PATH := "/run/spire/server-sockets/api.sock"

  function Flagged(flag: string, values: seq<string>): seq<string> {
    if values == [] then [] else [flag, values[0]] + Flagged(flag, values[1..])
  }

  function CreateArgs(req: CreateRequest): seq<string> {
    ["entry", "create", "-spiffeID", req.spiffeId, "-parentID", req.parentId, "-ttl", PrintInt(req.ttl)]
    + Lists(req)
  }

  function Lists(req: CreateRequest): seq<string> {
    Flagged("-selector", req.selectors) + Flagged("-dns", req.dnsNames) + (if req.admin then ["-admin"] else [])
  }

  /** The vector `_exec_command` starts for some command arguments. */
  function ServerCommand(container: string, args: seq<string>): seq<string> {
    ["docker", "exec", container, SERVER_BINARY] + (args + ["-socketPath", SOCKET_PATH])
  }

  lemma {:induction false} FlaggedAppend(flag: string, xs: seq<string>, y: string)
    ensures Flagged(flag, xs + [y]) == Flagged(flag, xs) + [flag, y]
  {
    if xs == [] {
      assert xs + [y] == [y] && [y][1..] == [];
    } else {
      assert (xs + [y])[1..] == xs[1..] + [y];
      FlaggedAppend(flag, xs[1..], y);
    }
  }

  /** `create_entry` builds the arguments flag by flag. */
  method BuildCreateArgs(req: CreateRequest) returns (cmdArgs: seq<string>)
    ensures cmdArgs == CreateArgs(req)
  {
    cmdArgs := ["entry", "create", "-spiffeID", req.spiffeId, "-parentID", req.parentId, "-ttl", PrintInt(req.ttl)];
    ghost var scalars := cmdArgs;
    for i := 0 to |req.selectors|
      invariant cmdArgs == scalars + Flagged("-selector", req.selectors[..i])
    {
      FlaggedAppend("-selector", req.selectors[..i], req.selectors[i]);
      assert req.selectors[..i + 1] == req.selectors[..i] + [req.selectors[i]];
      cmdArgs := cmdArgs + ["-selector", req.selectors[i]];
    }
    assert req.selectors[..|req.selectors|] == req.selectors;
    ghost var selectors := Flagged("-selector", req.selectors);
    for i := 0 to |req.dnsNames|
      invariant cmdArgs == scalars + (selectors + Flagged("-dns", req.dnsNames[..i]))
    {
      FlaggedAppend("-dns", req.dnsNames[..i], req.dnsNames[i]);
      assert req.dnsNames[..i + 1] == req.dnsNames[..i] + [req.dnsNames[i]];
      cmdArgs := cmdArgs + ["-dns", req.dnsNames[i]];
    }
    assert req.dnsNames[..|req.dnsNames|] == req.dnsNames;
    if req.admin {
      cmdArgs := cmdArgs + ["-admin"];
    }
  }

  // ---- Decoding --------------------------------------------------------------------------

  /** What a flag parser has collected so far. */
  datatype Flags = Flags(
    spiffeId: Option<string>, parentId: Option<string>, ttl: Option<string>, socketPath: Option<string>,
    selectors: seq<string>, dnsNames: seq<string>, admin: bool)

  const NO_FLAGS := Flags(None, None, None, None, [], [], false)

  function SetFlag(f: Flags, flag: string, value: string): Option<Flags> {
    if flag == "-spiffeID" then Some(f.(spiffeId := Some(value)))
    else if flag == "-parentID" then Some(f.(parentId := Some(value)))
    else if flag == "-ttl" then Some(f.(ttl := Some(value)))
    else if flag == "-socketPath" then Some(f.(socketPath := Some(value)))
    else if flag == "-selector" then Some(f.(selectors := f.selectors + [value]))
    else if flag == "-dns" then Some(f.(dnsNames := f.dnsNames + [value]))
    else None
  }

  function ReadFlags(args: seq<string>, f: Flags): Option<Flags> {
    if args == [] then Some(f)
    else if args[0] == "-admin" then ReadFlags(args[1..], f.(admin := true))
    else if |args| == 1 then None
    else
      match SetFlag(f, args[0], args[1])
      case None => None
      case Some(g) => ReadFlags(args[2..], g)
  }

  datatype Command = Command(container: string, request: CreateRequest, socketPath: string)

  function Decode(argv: seq<string>): Option<Command> {
    if |argv| < 6 || argv[0] != "docker" || argv[1] != "exec" || argv[3] != SERVER_BINARY
       || argv[4] != "entry" || argv[5] != "create" then None
    else
      match ReadFlags(argv[6..], NO_FLAGS)
      case None => None
      case Some(f) =>
        if f.spiffeId.None? || f.parentId.None? || f.ttl.None? || f.socketPath.None? then None else
          match ParseInt(f.ttl.value)
          case None => None
          case Some(ttl) =>
            Some(Command(
                   argv[2],
                   CreateRequest(f.spiffeId.value, f.parentId.value, f.selectors, ttl, f.admin, f.dnsNames),
                   f.socketPath.value))
  }

  /** A valued flag takes the next argument, whatever it looks like. */
  lemma ReadOne(flag: string, value: string, rest: seq<string>, f: Flags)
    requires flag != "-admin" && SetFlag(f, flag, value).Some?
    ensures ReadFlags([flag, value] + rest, f) == ReadFlags(rest, SetFlag(f, flag, value).value)
  {
    assert ([flag, value] + rest)[2..] == rest;
  }

  lemma {:induction false} ReadSelectors(values: seq<string>, rest: seq<string>, f: Flags)
    ensures ReadFlags(Flagged("-selector", values) + rest, f)
         == ReadFlags(rest, f.(selectors := f.selectors + values))
  {
    if values == [] {
      assert Flagged("-selector", values) + rest == rest && f.selectors + values == f.selectors;
    } else {
      var tail := Flagged("-selector", values[1..]);
      assert Flagged("-selector", values) + rest == ["-selector", values[0]] + (tail + rest);
      ReadOne("-selector", values[0], tail + rest, f);
      ReadSelectors(values[1..], rest, f.(selectors := f.selectors + [values[0]]));
      assert f.selectors + [values[0]] + values[1..] == f.selectors + values;
    }
  }

  lemma {:induction false} ReadDnsNames(values: seq<string>, rest: seq<string>, f: Flags)
    ensures ReadFlags(Flagged("-dns", values) + rest, f)
         == ReadFlags(rest, f.(dnsNames := f.dnsNames + values))
  {
    if values == [] {
      assert Flagged("-dns", values) + rest == rest && f.dnsNames + values == f.dnsNames;
    } else {
      var tail := Flagged("-dns", values[1..]);
      assert Flagged("-dns", values) + rest == ["-dns", values[0]] + (tail + rest);
      ReadOne("-dns", values[0], tail + rest, f);
      ReadDnsNames(values[1..], rest, f.(dnsNames := f.dnsNames + [values[0]]));
      assert f.dnsNames + [values[0]] + values[1..] == f.dnsNames + values;
    }
  }

  lemma ReadTail(admin: bool, f: Flags)
    ensures ReadFlags((if admin then ["-admin"] else []) + ["-socketPath", SOCKET_PATH], f)
         == Some(f.(admin := f.admin || admin, socketPath := Some(SOCKET_PATH)))
  {
    var socket := ["-socketPath", SOCKET_PATH];
    assert (["-admin"] + socket)[1..] == socket && [] + socket == socket == socket + [];
    ReadOne("-socketPath", SOCKET_PATH, [], f);
    ReadOne("-socketPath", SOCKET_PATH, [], f.(admin := true));
  }

  lemma ReadScalars(spiffeId: string, parentId: string, ttl: string, rest: seq<string>)
    ensures ReadFlags(["-spiffeID", spiffeId] + (["-parentID", parentId] + (["-ttl", ttl] + rest)), NO_FLAGS)
         == ReadFlags(rest, NO_FLAGS.(spiffeId := Some(spiffeId), parentId := Some(parentId), ttl := Some(ttl)))
  {
    var f := NO_FLAGS.(spiffeId := Some(spiffeId));
    var g := f.(parentId := Some(parentId));
    ReadOne("-spiffeID", spiffeId, ["-parentID", parentId] + (["-ttl", ttl] + rest), NO_FLAGS);
    ReadOne("-parentID", parentId, ["-ttl", ttl] + rest, f);
    ReadOne("-ttl", ttl, rest, g);
  }

  lemma ReadLists(req: CreateRequest, f: Flags)
    requires f.selectors == [] && f.dnsNames == [] && !f.admin
    ensures ReadFlags(Lists(req) + ["-socketPath", SOCKET_PATH], f)
         == Some(f.(selectors := req.selectors, dnsNames := req.dnsNames, admin := req.admin,
                    socketPath := Some(SOCKET_PATH)))
  {
    var selectors, dns := Flagged("-selector", req.selectors), Flagged("-dns", req.dnsNames);
    var tail := (if req.admin then ["-admin"] else []) + ["-socketPath", SOCKET_PATH];
    assert Lists(req) + ["-socketPath", SOCKET_PATH] == selectors + (dns + tail);
    ReadSelectors(req.selectors, dns + tail, f);
    assert [] + req.selectors == req.selectors && [] + req.dnsNames == req.dnsNames;
    var g := f.(selectors := req.selectors);
    ReadDnsNames(req.dnsNames, tail, g);
    ReadTail(req.admin, g.(dnsNames := req.dnsNames));
  }

  lemma CommandShape(req: CreateRequest, container: string)
    ensures var argv := ServerCommand(container, CreateArgs(req));
            && |argv| >= 6
            && argv[6..]
               == ["-spiffeID", req.spiffeId] + (["-parentID", req.parentId] + (["-ttl", PrintInt(req.ttl)]
                  + (Lists(req) + ["-socketPath", SOCKET_PATH])))
  {
    FlagsShape(req.spiffeId, req.parentId, PrintInt(req.ttl), Lists(req), container);
  }

  lemma FlagsShape(spiffeId: string, parentId: string, ttl: string, lists: seq<string>, container: string)
    ensures var socket := ["-socketPath", SOCKET_PATH];
            var args := ["entry", "create", "-spiffeID", spiffeId, "-parentID", parentId, "-ttl", ttl] + lists;
            ServerCommand(container, args)[6..]
            == ["-spiffeID", spiffeId] + (["-parentID", parentId] + (["-ttl", ttl] + (lists + socket)))
  {
  }

  /** The vector decodes to the request it was built from, for any number of selectors and DNS
      names and whatever the values look like. */
  lemma DecodeEncoded(req: CreateRequest, container: string)
    requires Printable(req.ttl)
    ensures var argv := ServerCommand(container, CreateArgs(req));
            && Decode(argv) == Some(Command(container, req, "/run/spire/server-sockets/api.sock"))
            && argv[..4] == ["docker", "exec", container, "/opt/spire/bin/spire-server"]
  {
    var ttl := PrintInt(req.ttl);
    CommandShape(req, container);
    ReadScalars(req.spiffeId, req.parentId, ttl, Lists(req) + ["-socketPath", SOCKET_PATH]);
    ReadLists(req, NO_FLAGS.(spiffeId := Some(req.spiffeId), parentId := Some(req.parentId), ttl := Some(ttl)));
    ParsePrinted(req.ttl);
  }

  /** Different requests or containers never give the same vector. */
  lemma EncodingIsInjective(req: CreateRequest, container: string, req': CreateRequest, container': string)
    requires Printable(req.ttl) && Printable(req'.ttl)
    requires ServerCommand(container, CreateArgs(req)) == ServerCommand(container', CreateArgs(req'))
    ensures req == req' && container == container'
  {
    DecodeEncoded(req, container);
    DecodeEncoded(req', container');
  }
}
