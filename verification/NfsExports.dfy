/**
 NFS export authoring (src/exports.rs): the host list printer, the validator, and
 the check of the live export table against what was asked for.
 */
module NfsExports {
  import opened Wrappers
  import opened Text
  import opened Ordering

  datatype ExportEntry = ExportEntry(
    path: string, allowedClients: seq<string>, options: seq<string>, fsid: Option<string>)

  // ---- Printing and validating ----------------------------------------------------

  function RenderClient(client: string, opts: string): string {
    if opts == "" then client else client + "(" + opts + ")"
  }

  function RenderClients(clients: seq<string>, opts: string): (r: seq<string>)
    ensures |r| == |clients|
    ensures forall i | 0 <= i < |r| :: r[i] == RenderClient(clients[i], opts)
  {
    seq(|clients|, i requires 0 <= i < |clients| => RenderClient(clients[i], opts))
  }

  /** Unraid's `shareHostListNFS` form. */
  function RenderHostList(clients: seq<string>, options: seq<string>): string {
    Join(RenderClients(clients, Join(options, ",")), " ")
  }

  predicate TokenChar(c: char, extra: string) {
    IsAlnumAscii(c) || c in "._-:/=@*" || c in extra
  }

  predicate TokenOk(v: string, extra: string) {
    v != "" && forall i | 0 <= i < |v| :: TokenChar(v[i], extra)
  }

  predicate IsControl(c: char) {
    c < ' ' || '\U{007F}' <= c <= '\U{009F}'
  }

  predicate PathOk(p: string) {
    forall i | 0 <= i < |p| :: !IsControl(p[i]) && p[i] != '"' && p[i] != '\\'
  }

  predicate OptionOk(o: string) {
    TokenOk(o, "") && ':' !in o && '@' !in o && '*' !in o
  }

  function ValidateEntry(e: ExportEntry): Result<(), string> {
    if !PathOk(e.path) then Err("path")
    else if e.allowedClients == [] then Err("export needs at least one client")
    else if exists c | c in e.allowedClients :: !TokenOk(c, "[]") then Err("client")
    else if exists o | o in e.options :: !OptionOk(o) then Err("option")
    else if e.fsid.Some? && e.fsid.value != "" && !TokenOk(e.fsid.value, "") then Err("fsid")
    else Ok(())
  }

  // ---- The live table ---------------------------------------------------------------

  type ClientGroup = (string, seq<string>)

  datatype Groups = Groups(defaults: seq<string>, clients: seq<ClientGroup>)

  function TrimEndParens(s: string): string {
    if s != "" && s[|s| - 1] == ')' then TrimEndParens(s[..|s| - 1]) else s
  }

  /** The groups after one more token of the line. */
  function AddToken(g: Groups, tok: string): Groups {
    if |tok| > 0 && tok[0] == '-' then
      g.(defaults := g.defaults + NonEmpty(Split(tok[1..], ',')))
    else match SplitOnce(tok, '(')
      case Some((c, o)) => g.(clients := g.clients + [(c, Sort(NonEmpty(Split(TrimEndParens(o), ','))))])
      case None => g
  }

  function AddTokens(g: Groups, toks: seq<string>): Groups
    decreases toks
  {
    if toks == [] then g else AddTokens(AddToken(g, toks[0]), toks[1..])
  }

  /** The tokens after the quoted path, if the line exports `path`. */
  function LineTokens(line: string, path: string): Option<seq<string>> {
    match StripPrefix(Trim(line), "\"")
    case None => None
    case Some(rest) =>
      match SplitOnce(rest, '"')
      case None => None
      case Some((p, more)) => if p == path then Some(Words(more)) else None
  }

  /** The groups of a line that exports `path` to someone. */
  function LineGroups(line: string, path: string): Option<Groups> {
    match LineTokens(line, path)
    case None => None
    case Some(toks) =>
      var g := AddTokens(Groups([], []), toks);
      if g.clients != [] then Some(g) else None
  }

  function FirstGroups(lines: seq<string>, path: string): Option<Groups> {
    if lines == [] then None
    else if LineGroups(lines[0], path).Some? then LineGroups(lines[0], path)
    else FirstGroups(lines[1..], path)
  }

  method LiveGroups(exports: string, path: string) returns (r: Option<Groups>)
    ensures r == FirstGroups(Lines(exports), path)
  {
    var lines := Lines(exports);
    for i := 0 to |lines|
      invariant FirstGroups(lines[i..], path) == FirstGroups(lines, path)
    {
      assert lines[i..][1..] == lines[i + 1..];
      var toks := LineTokens(lines[i], path);
      if toks.Some? {
        var defaults, clients := [], [];
        ghost var g := Groups([], []);
        for j := 0 to |toks.value|
          invariant g == Groups(defaults, clients)
          invariant AddTokens(g, toks.value[j..]) == AddTokens(Groups([], []), toks.value)
        {
          var tok := toks.value[j];
          assert toks.value[j..][1..] == toks.value[j + 1..];
          if |tok| > 0 && tok[0] == '-' {
            defaults := defaults + NonEmpty(Split(tok[1..], ','));
          } else if SplitOnce(tok, '(').Some? {
            var (c, o) := SplitOnce(tok, '(').value;
            var opts := Sort(NonEmpty(Split(TrimEndParens(o), ',')));
            clients := clients + [(c, opts)];
          }
          g := AddToken(g, tok);
        }
        if clients != [] {
          return Some(Groups(defaults, clients));
        }
      }
    }
    r := None;
  }

  // ---- The check ---------------------------------------------------------------------

  datatype Problem =
    | StillExported
    | NotExported
    | Clients(want: seq<string>, got: seq<string>)
    | Options(client: string, want: seq<string>, got: seq<string>)
    | ExtraDefaults(extra: seq<string>)

  predicate ExpectedDefault(o: string) {
    "fsid=" <= o || o in ["async", "no_subtree_check"]
  }

  function ClientNames(clients: seq<ClientGroup>): (r: seq<string>)
    ensures |r| == |clients| && forall i | 0 <= i < |r| :: r[i] == clients[i].0
  {
    seq(|clients|, i requires 0 <= i < |clients| => clients[i].0)
  }

  function OptionProblems(clients: seq<ClientGroup>, want: seq<string>): seq<Problem> {
    if clients == [] then []
    else
      (if clients[0].1 != want then [Options(clients[0].0, want, clients[0].1)] else [])
      + OptionProblems(clients[1..], want)
  }

  function Unexpected(defaults: seq<string>): seq<string> {
    if defaults == [] then []
    else
      (if ExpectedDefault(defaults[0]) then [] else [defaults[0]]) + Unexpected(defaults[1..])
  }

  function GroupProblems(want: ExportEntry, g: Groups): seq<Problem> {
    var wc, gc := Sort(want.allowedClients), Sort(ClientNames(g.clients));
    (if wc != gc then [Clients(wc, gc)] else [])
    + OptionProblems(g.clients, Sort(want.options))
    + (if Unexpected(g.defaults) != [] then [ExtraDefaults(Unexpected(g.defaults))] else [])
  }

  function Problems(exports: string, path: string, entry: Option<ExportEntry>): seq<Problem> {
    match (entry, FirstGroups(Lines(exports), path))
    case (None, None) => []
    case (None, Some(_)) => [StillExported]
    case (Some(_), None) => [NotExported]
    case (Some(want), Some(g)) => GroupProblems(want, g)
  }

  method CheckGroups(want: ExportEntry, got: Groups) returns (r: seq<Problem>)
    ensures r == GroupProblems(want, got)
  {
    hide Sort, ClientNames, Unexpected;
    var wc, gc, wo := Sort(want.allowedClients), Sort(ClientNames(got.clients)), Sort(want.options);
    r := if wc != gc then [Clients(wc, gc)] else [];
    ghost var start, all := r, OptionProblems(got.clients, wo);
    for i := 0 to |got.clients|
      invariant r + OptionProblems(got.clients[i..], wo) == start + all
    {
      var (c, o) := got.clients[i];
      assert got.clients[i..][1..] == got.clients[i + 1..];
      var piece := if o != wo then [Options(c, wo, o)] else [];
      Assoc(r, piece, OptionProblems(got.clients[i + 1..], wo));
      r := r + piece;
    }
    assert r == start + all;
    var extra := Unexpected(got.defaults);
    if extra != [] {
      r := r + [ExtraDefaults(extra)];
    }
  }

  method CheckLive(exports: string, path: string, entry: Option<ExportEntry>) returns (r: seq<Problem>)
    ensures r == Problems(exports, path, entry)
  {
    var live := LiveGroups(exports, path);
    match (entry, live) {
      case (None, None) => r := [];
      case (None, Some(_)) => r := [StillExported];
      case (Some(_), None) => r := [NotExported];
      case (Some(want), Some(got)) => r := CheckGroups(want, got);
    }
  }
}
