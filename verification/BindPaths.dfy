/** Whether a bind of some container reaches into a folder (src/docker_adopt/orphans.rs). */
module BindPaths {
  import opened Text
  import opened Docker

  /** A path's components: empty ones and `.` do not count. */
  datatype Path = Path(rooted: bool, parts: seq<string>)

  function WithoutDots(parts: seq<string>): seq<string> {
    if parts == [] then []
    else (if parts[0] == "." then [] else [parts[0]]) + WithoutDots(parts[1..])
  }

  function Components(p: string): Path {
    Path(p != "" && p[0] == '/', WithoutDots(NonEmpty(Split(p, '/'))))
  }

  /** The names below `/mnt` that are no pool. */
  predicate IsNoPool(s: string) {
    s in ["user", "disks", "remotes", "addons", "rootshare", ".."]
  }

  /** `share_alias`: a pool's path to a share is the share's path below `/mnt/user`. */
  function ShareAlias(p: Path): Path {
    if !p.rooted || |p.parts| <= 2 || p.parts[0] != "mnt" || IsNoPool(p.parts[1]) then p
    else Path(true, ["mnt", "user"] + p.parts[2..])
  }

  predicate Within(p: Path, dir: Path) {
    p.rooted == dir.rooted && dir.parts <= p.parts
  }

  predicate Overlapping(a: string, b: string) {
    var (x, y) := (ShareAlias(Components(a)), ShareAlias(Components(b)));
    Within(x, y) || Within(y, x)
  }

  /** `binds_overlapping` finds none. */
  predicate NoBindOverlaps(path: string, all: seq<ContainerInspect>) {
    forall c | c in all :: forall b | b in c.binds :: !Overlapping(path, b)
  }

  function Destination(name: string, suffix: string): string {
    "/mnt/user/appdata/" + name + "/" + suffix
  }

  // ---- What overlaps a destination ---------------------------------------------------------

  predicate IsComponent(s: string) {
    s != "" && s != "." && '/' !in s
  }

  lemma ComponentsOfDestination(name: string, suffix: string)
    requires IsComponent(name) && IsComponent(suffix)
    ensures Components(Destination(name, suffix)) == Path(true, ["mnt", "user", "appdata", name, suffix])
  {
    hide Split, NonEmpty, WithoutDots;
    var parts := ["", "mnt", "user", "appdata", name, suffix];
    JoinsTo(name, suffix);
    FixedParts();
    SplitJoin(parts, '/');
    SixParts(name, suffix);
  }

  lemma FixedParts()
    ensures '/' !in "mnt" && '/' !in "user" && '/' !in "appdata" && "mnt" != "." && "user" != "." && "appdata" != "."
  {}

  lemma JoinsTo(name: string, suffix: string)
    ensures Join(["", "mnt", "user", "appdata", name, suffix], "/") == Destination(name, suffix)
    ensures Destination(name, suffix) != "" && Destination(name, suffix)[0] == '/'
  {
    var rest := name + "/" + suffix;
    assert Join([name, suffix], "/") == rest by {
      assert [name, suffix] == [name] + [suffix];
      JoinCons(name, [suffix]);
      JoinOne(suffix);
    }
    JoinPrefix([name, suffix]);
    Nested(rest);
    assert Destination(name, suffix) == "/mnt/user/appdata/" + rest;
    hide Join, Destination;
  }

  lemma JoinPrefix(rest: seq<string>)
    requires |rest| == 2
    ensures Join(["", "mnt", "user", "appdata", rest[0], rest[1]], "/")
         == "" + "/" + ("mnt" + "/" + ("user" + "/" + ("appdata" + "/" + Join(rest, "/"))))
  {
    hide Join;
    var one := ["appdata", rest[0], rest[1]];
    var two := ["user", "appdata", rest[0], rest[1]];
    var three := ["mnt", "user", "appdata", rest[0], rest[1]];
    assert one == ["appdata"] + rest && two == ["user"] + one && three == ["mnt"] + two;
    assert ["", "mnt", "user", "appdata", rest[0], rest[1]] == [""] + three;
    JoinCons("appdata", rest);
    JoinCons("user", one);
    JoinCons("mnt", two);
    JoinCons("", three);
  }

  lemma Nested(rest: string)
    ensures "" + "/" + ("mnt" + "/" + ("user" + "/" + ("appdata" + "/" + rest))) == "/mnt/user/appdata/" + rest
  {
    Assoc("/mnt/user/", "appdata/", rest);
    Assoc("/mnt/", "user/", "appdata/" + rest);
    Assoc("/", "mnt/", "user/" + ("appdata/" + rest));
  }

  lemma JoinOne(s: string)
    ensures Join([s], "/") == s
  {}

  lemma JoinCons(s: string, rest: seq<string>)
    requires rest != []
    ensures Join([s] + rest, "/") == s + "/" + Join(rest, "/")
  {
    assert ([s] + rest)[1..] == rest;
  }

  lemma SixParts(name: string, suffix: string)
    requires IsComponent(name) && IsComponent(suffix)
    ensures WithoutDots(NonEmpty(["", "mnt", "user", "appdata", name, suffix]))
         == ["mnt", "user", "appdata", name, suffix]
  {
    var parts := ["mnt", "user", "appdata", name, suffix];
    assert ["", "mnt", "user", "appdata", name, suffix][1..] == parts;
    assert NonEmpty(parts) == parts;
    NoDots(parts);
  }

  lemma {:induction false} NoDots(parts: seq<string>)
    requires "." !in parts
    ensures WithoutDots(parts) == parts
  {
    if parts == [] {
    } else {
      NoDots(parts[1..]);
    }
  }

  /**
   A bind reaches into, or holds, the folder of a container's copy exactly if, on whatever pool,
   it lies on the way from the share to the folder or below it, or is `/`, `/mnt` or `/mnt/user`.
   */
  lemma OverlapsIff(name: string, suffix: string, bind: string)
    requires IsComponent(name) && IsComponent(suffix)
    ensures var (b, copy) := (Components(bind), ["appdata", name, suffix]);
            Overlapping(Destination(name, suffix), bind) <==>
              b.rooted
              && if |b.parts| <= 2 then b.parts in [[], ["mnt"], ["mnt", "user"]]
                 else b.parts[0] == "mnt" && b.parts[1] !in ["disks", "remotes", "addons", "rootshare", ".."]
                      && (b.parts[2..] <= copy || copy <= b.parts[2..])
  {
    hide Components;
    ComponentsOfDestination(name, suffix);
    var (b, d) := (Components(bind).parts, ["mnt", "user", "appdata", name, suffix]);
    assert d[2..] == ["appdata", name, suffix] && d == ["mnt", "user"] + d[2..];
    if |b| <= 2 {
      PrefixOfDestination(b, d);
    } else {
      PrefixSplits(b, d);
      var alias := ["mnt", "user"] + b[2..];
      assert alias[2..] == b[2..];
      PrefixSplits(alias, d);
    }
  }

  lemma PrefixSplits(b: seq<string>, d: seq<string>)
    requires |b| > 2 && |d| > 2
    ensures b <= d <==> b[0] == d[0] && b[1] == d[1] && b[2..] <= d[2..]
  {
    if b <= d { assert forall i | 0 <= i < |b| - 2 :: b[2..][i] == b[i + 2] == d[i + 2] == d[2..][i]; }
    if b[0] == d[0] && b[1] == d[1] && b[2..] <= d[2..] {
      assert forall i | 2 <= i < |b| :: b[i] == b[2..][i - 2] == d[2..][i - 2] == d[i];
    }
  }

  lemma PrefixOfDestination(b: seq<string>, d: seq<string>)
    requires |b| <= 2 < |d| && d[0] == "mnt" && d[1] == "user"
    ensures b <= d <==> b in [[], ["mnt"], ["mnt", "user"]]
    ensures !(d <= b)
  {
    if |b| == 1 { assert b == [b[0]]; }
    if |b| == 2 { assert b == [b[0], b[1]]; }
  }
}
