/**
 The rewritten section, read back by the independent reader, has the requested mode but for
 what stale lines say, and no other section changes (src/smb_share_write.rs, src/smb_shares.rs).
 */
module SmbMode {
  import opened Wrappers
  import opened Text
  import opened Ordering
  import opened SmbRewrite
  import opened SmbRewriteLaws
  import opened SmbShares
  import opened SmbRequest

  // ---- Keys: what the reader obeys and the rewriter removes -------------------
  // All the reader's keys that decide the mode are removed. Of the two names it takes for
  // "guest only" just one is: `only guest` is kept.

  lemma {:induction false} NormalizeConcat(a: string, b: string)
    ensures NormalizeKey(a + b) == NormalizeKey(a) + NormalizeKey(b)
  {
    if a == "" {
      assert a + b == b;
    } else {
      assert (a + b)[1..] == a[1..] + b;
      NormalizeConcat(a[1..], b);
    }
  }

  lemma NormalizeTrimStart(k: string)
    ensures NormalizeKey(TrimStart(k)) == NormalizeKey(k)
  {}

  lemma {:induction false} NormalizeTrimEnd(k: string)
    ensures NormalizeKey(TrimEnd(k)) == NormalizeKey(k)
  {
    if k != "" && IsSpace(k[|k| - 1]) {
      var init := k[..|k| - 1];
      assert k == init + [k[|k| - 1]];
      NormalizeConcat(init, [k[|k| - 1]]);
      NormalizeTrimEnd(init);
    }
  }

  lemma {:induction false} NormalizeLower(k: string)
    ensures NormalizeKey(Lower(k)) == NormalizeKey(k)
  {
    if k == "" {
    } else {
      assert Lower(k)[1..] == Lower(k[1..]);
      NormalizeLower(k[1..]);
    }
  }

  /** The rewriter's reading of a key depends only on the reader's reading of it. */
  lemma SameKey(k: string)
    ensures NormalizeKey(k) == NormalizeKey(Lower(Trim(k)))
  {
    NormalizeTrimEnd(k);
    NormalizeTrimStart(TrimEnd(k));
    NormalizeLower(Trim(k));
  }

  /** A word in normal form already. */
  predicate Solid(s: string) {
    forall i | 0 <= i < |s| :: IsLowerAscii(s[i])
  }

  lemma {:induction false} NormalizeSolid(s: string)
    requires Solid(s)
    ensures NormalizeKey(s) == s
  {
    if s == "" {
    } else {
      NormalizeSolid(s[1..]);
    }
  }

  lemma NormalizeTwoWords(a: string, b: string, key: string, joined: string)
    requires Solid(a) && Solid(b) && key == a + " " + b && joined == a + b
    ensures NormalizeKey(key) == joined
  {
    NormalizeConcat(a + " ", b);
    NormalizeConcat(a, " ");
    NormalizeSolid(a);
    NormalizeSolid(b);
  }

  lemma FlagKeyIsAccessKey(k: string)
    requires KeyOf(k).GuestOk? || KeyOf(k).Writeable? || KeyOf(k).ReadOnly?
    ensures IsAccessKey(NormalizeKey(k))
  {
    hide NormalizeKey;
    if k == "guest ok" {
      NormalizeTwoWords("guest", "ok", k, "guestok");
    } else if k == "read only" {
      NormalizeTwoWords("read", "only", k, "readonly");
    } else {
      NormalizeSolid(k);
    }
  }

  lemma ValidUsersNormal()
    ensures NormalizeKey("valid users") == "validusers"
  {
    hide NormalizeKey;
    NormalizeTwoWords("valid", "users", "valid users", "validusers");
  }

  lemma WriteListNormal()
    ensures NormalizeKey("write list") == "writelist"
  {
    hide NormalizeKey;
    NormalizeTwoWords("write", "list", "write list", "writelist");
  }

  lemma InvalidUsersNormal()
    ensures NormalizeKey("invalid users") == "invalidusers"
  {
    hide NormalizeKey;
    NormalizeTwoWords("invalid", "users", "invalid users", "invalidusers");
  }

  lemma UserListKeyIsAccessKey(k: string)
    requires KeyOf(k).ValidUsers? || KeyOf(k).WriteList? || KeyOf(k).InvalidUsers?
    ensures IsAccessKey(NormalizeKey(k))
  {
    hide NormalizeKey;
    ValidUsersNormal();
    WriteListNormal();
    InvalidUsersNormal();
  }

  lemma GuestOnlyIsAccessKey()
    ensures IsAccessKey(NormalizeKey("guest only"))
  {
    hide NormalizeKey;
    NormalizeTwoWords("guest", "only", "guest only", "guestonly");
  }

  lemma OnlyGuestIsNoAccessKey()
    ensures !IsAccessKey(NormalizeKey("only guest"))
  {
    hide NormalizeKey;
    NormalizeTwoWords("only", "guest", "only guest", "onlyguest");
  }

  lemma PathIsKept(k: string)
    requires KeyOf(k).Path?
    ensures !IsAccessKey(NormalizeKey(k))
  {
    hide NormalizeKey;
    NormalizeSolid("path");
  }

  lemma GuestAccountIsKept(k: string)
    requires KeyOf(k).GuestAccountKey?
    ensures !IsAccessKey(NormalizeKey(k))
  {
    hide NormalizeKey;
    NormalizeTwoWords("guest", "account", "guest account", "guestaccount");
  }

  // ---- What a line can do to a section ----------------------------------------

  /** The fields the requested mode is about. */
  predicate SameAccess(a: SmbShare, b: SmbShare) {
    && a.guestOk == b.guestOk && a.writeable == b.writeable
    && a.validUsers == b.validUsers && a.writeList == b.writeList && a.invalidUsers == b.invalidUsers
  }

  predicate SameRest(a: SmbShare, b: SmbShare) {
    a.name == b.name && a.path == b.path && a.guestAccount == b.guestAccount
  }

  /** The key by which a kept line still decides that every connection is a guest's. */
  predicate IsOnlyGuest(k: string) {
    Lower(Trim(k)) == "only guest"
  }

  /** A line the rewriter keeps sets none of the access fields, but for an `only guest` line. */
  lemma KeptKeySetsNoAccess(cur: SmbShare, k: string, v: string)
    requires !IsAccessKey(NormalizeKey(k))
    ensures SameAccess(Set(cur, KeyOf(Lower(Trim(k))), v), cur)
    ensures Set(cur, KeyOf(Lower(Trim(k))), v).guestOnly == if IsOnlyGuest(k) then Yes(v) else cur.guestOnly
  {
    SameKey(k);
    GuestOnlyIsAccessKey();
    GuestOnlyKeys(Lower(Trim(k)));
    hide NormalizeKey, IsAccessKey, KeyOf, Users, Yes, Trim, Lower;
    var key := KeyOf(Lower(Trim(k)));
    if key.GuestOk? || key.Writeable? || key.ReadOnly? {
      FlagKeyIsAccessKey(Lower(Trim(k)));
    } else if key.ValidUsers? || key.WriteList? || key.InvalidUsers? {
      UserListKeyIsAccessKey(Lower(Trim(k)));
    }
  }

  lemma GuestOnlyKeys(k: string)
    ensures KeyOf(k).GuestOnly? <==> k == "guest only" || k == "only guest"
  {}

  lemma AccessKeyIsNoRest(k: string)
    requires IsAccessKey(NormalizeKey(k))
    ensures !KeyOf(Lower(Trim(k))).Path? && !KeyOf(Lower(Trim(k))).GuestAccountKey? && !IsOnlyGuest(k)
  {
    OnlyGuestIsNoAccessKey();
    hide NormalizeKey, IsAccessKey, KeyOf, Trim, Lower;
    SameKey(k);
    var key := KeyOf(Lower(Trim(k)));
    if key.Path? {
      PathIsKept(Lower(Trim(k)));
    } else if key.GuestAccountKey? {
      GuestAccountIsKept(Lower(Trim(k)));
    }
  }

  lemma DroppedSetsAccess(cur: SmbShare, key: Key, v: string)
    requires !key.Path? && !key.GuestAccountKey?
    ensures SameRest(Set(cur, key, v), cur)
  {}

  /** A line the rewriter drops sets nothing but access fields, and is no `only guest` line. */
  lemma DroppedKeySetsOnlyAccess(cur: SmbShare, k: string, v: string)
    requires IsAccessKey(NormalizeKey(k))
    ensures SameRest(Set(cur, KeyOf(Lower(Trim(k))), v), cur)
    ensures !IsOnlyGuest(k)
  {
    AccessKeyIsNoRest(k);
    DroppedSetsAccess(cur, KeyOf(Lower(Trim(k))), v);
  }

  lemma SameLineSameRest(a: SmbShare, b: SmbShare, key: Key, v: string)
    requires SameRest(a, b)
    ensures SameRest(Set(a, key, v), Set(b, key, v))
  {}

  // ---- The inserted lines, read back -------------------------------------------

  /** A word or list that trimming leaves alone and that fits on its line. */
  predicate PlainValue(s: string) {
    && s != "" && !IsSpace(s[0]) && !IsSpace(s[|s| - 1]) && s[|s| - 1] !in "\\]\r"
    && OneLine(s)
  }

  predicate PlainKey(k: string) {
    && k != "" && Lower(k) == k && '=' !in k && OneLine(k)
    && !IsSpace(k[0]) && !IsSpace(k[|k| - 1]) && k[0] !in "[#;"
  }

  /** An inserted line is read as exactly its setting. */
  lemma SettingReadsBack(key: string, value: string)
    requires PlainKey(key) && PlainValue(value)
    ensures var t := Trim("\t" + Setting(key, value));
            && t == Setting(key, value)
            && !IsComment(t) && Bracketed(t).None?
            && SplitOnce(t, '=') == Some((key + " ", " " + value))
            && Lower(Trim(key + " ")) == key
            && Trim(" " + value) == value
  {
    SettingTrims(key, value);
    KeyAndValueTrim(key, value);
    hide Trim, SplitOnce, Lower;
    var t := Setting(key, value);
    assert t == (key + " ") + ['='] + (" " + value);
    SplitOnceJoined(key + " ", '=', " " + value);
  }

  lemma SettingTrims(key: string, value: string)
    requires PlainKey(key) && PlainValue(value)
    ensures var t := Setting(key, value);
            Trim("\t" + t) == t && t != "" && t[0] == key[0] && t[|t| - 1] == value[|value| - 1]
  {
    hide Trim, Lower, OneLine;
    TrimLeadingSpace('\t', Setting(key, value));
    TrimKeepsSolid(Setting(key, value));
  }

  lemma KeyAndValueTrim(key: string, value: string)
    requires PlainKey(key) && PlainValue(value)
    ensures Lower(Trim(key + " ")) == key && Trim(" " + value) == value
  {
    TrimEndSpaces(key, " ");
    TrimKeepsSolid(key);
    TrimLeadingSpace(' ', value);
    TrimKeepsSolid(value);
    hide TrimEnd, TrimStart, Lower, OneLine;
  }

  lemma InsertedLineSets(out: seq<SmbShare>, key: string, value: string)
    requires out != [] && PlainKey(key) && PlainValue(value)
    ensures ReadLine(out, Trim("\t" + Setting(key, value)))
         == out[|out| - 1 := Set(out[|out| - 1], KeyOf(key), " " + value)]
  {
    SettingReadsBack(key, value);
  }

  lemma InsertedLineIsClean(key: string, value: string)
    requires PlainKey(key) && PlainValue(value) && IsAccessKey(NormalizeKey(key))
    ensures CleanLine(Setting(key, value))
  {
    hide IsAccessKey;
    SettingReadsBack(key, value);
    SameKey(key + " ");
    var t := Setting(key, value);
    assert t[|t| - 1] == value[|value| - 1];
  }

  // ---- User lists, printed and read back ---------------------------------------

  predicate UserChar(c: char) {
    IsLowerAscii(c) || IsDigitAscii(c) || c in "_-."
  }

  predicate AllUsers(names: seq<string>) {
    forall u | u in names :: ValidUser(u)
  }

  lemma {:induction false} JoinedUsers(names: seq<string>)
    requires names != [] && AllUsers(names)
    ensures var j := Join(names, ",");
            j != "" && UserChar(j[0]) && UserChar(j[|j| - 1])
            && forall i | 0 <= i < |j| :: UserChar(j[i]) || j[i] == ','
  {
    assert names[0] in names;
    if |names| <= 1 {
    } else {
      JoinedUsers(names[1..]);
    }
  }

  lemma UsersReadBack(names: seq<string>)
    requires names != [] && AllUsers(names)
    ensures Users(" " + Join(names, ",")) == names
  {
    var j := Join(names, ",");
    JoinedUsers(names);
    assert CommasForSpaces(" " + j) == "," + j;
    forall u | u in names ensures ',' !in u && Trim(u) == u && u != "" {
      hide Trim;
      TrimKeepsSolid(u);
    }
    hide Join, Trim, Split, NonEmpty, ValidUser;
    SplitJoin(names, ',');
    SplitComma(j);
    TrimmedNames(names);
  }

  lemma SplitComma(j: string)
    ensures Split("," + j, ',') == [""] + Split(j, ',')
  {
    assert Find("," + j, ',') == 0 && ("," + j)[..0] == "" && ("," + j)[1..] == j;
  }

  lemma TrimmedNames(names: seq<string>)
    requires forall u | u in names :: Trim(u) == u && u != ""
    ensures NonEmpty(TrimAll([""] + names)) == names
  {
    hide Trim;
    assert Trim("") == "" by { TrimNothing(); }
    assert TrimAll([""] + names) == [""] + names;
    assert ([""] + names)[1..] == names;
    NothingEmpty(names);
  }

  lemma TrimNothing()
    ensures Trim("") == ""
  {}

  lemma {:induction false} NothingEmpty(names: seq<string>)
    requires "" !in names
    ensures NonEmpty(names) == names
  {
    if names == [] {
    } else {
      NothingEmpty(names[1..]);
    }
  }

  lemma UserListIsPlain(names: seq<string>)
    requires names != [] && AllUsers(names)
    ensures PlainValue(Join(names, ","))
  {
    JoinedUsers(names);
  }

  lemma PrivateUsersValid(req: Request)
    requires ValidRequest(req) && req.security.Private?
    ensures PrivateUsers(req) != [] && AllUsers(PrivateUsers(req))
    ensures forall u :: u in PrivateUsers(req) <==> u in req.readList || u in req.writeList
  {
    var all := req.readList + req.writeList;
    DedupKeeps(Sort(all));
    forall u ensures u in Sort(all) <==> u in all {
      assert u in multiset(Sort(all)) <==> u in multiset(all);
    }
    assert all[0] in all;
  }

  // ---- The access lines as a whole ----------------------------------------------

  lemma {:induction false} LowerWords(k: string)
    requires forall i | 0 <= i < |k| :: IsLowerAscii(k[i]) || k[i] == ' '
    ensures Lower(k) == k && '=' !in k && OneLine(k)
  {
    if k == "" {
    } else {
      LowerWords(k[1..]);
    }
  }

  /** Lower-case words make plain keys and values. */
  lemma WordsArePlain(k: string)
    requires k != "" && IsLowerAscii(k[0]) && IsLowerAscii(k[|k| - 1])
    requires forall i | 0 <= i < |k| :: IsLowerAscii(k[i]) || k[i] == ' '
    ensures PlainKey(k) && PlainValue(k)
  {
    LowerWords(k);
    hide Lower, OneLine;
  }

  lemma AccessKeysPlain()
    ensures PlainKey("public") && PlainKey("writeable") && PlainKey("valid users") && PlainKey("write list")
    ensures PlainValue("yes") && PlainValue("no")
  {
    hide PlainKey, PlainValue;
    WordsArePlain("public");
    WordsArePlain("writeable");
    WordsArePlain("valid users");
    WordsArePlain("write list");
    WordsArePlain("yes");
    WordsArePlain("no");
  }

  lemma AccessLinesClean(req: Request)
    requires ValidRequest(req)
    ensures CleanAccess(AccessLines(req))
  {
    hide NormalizeKey, IsAccessKey, PlainKey, PlainValue, CleanLine, Join, Users, Setting, PrivateUsers;
    AccessKeysPlain();
    FlagKeyIsAccessKey("public");
    FlagKeyIsAccessKey("writeable");
    UserListKeyIsAccessKey("valid users");
    UserListKeyIsAccessKey("write list");
    InsertedLineIsClean("public", "yes");
    InsertedLineIsClean("public", "no");
    InsertedLineIsClean("writeable", "yes");
    InsertedLineIsClean("writeable", "no");
    if req.writeList != [] {
      UserListIsPlain(req.writeList);
      InsertedLineIsClean("write list", Join(req.writeList, ","));
    }
    if req.security.Private? {
      PrivateUsersValid(req);
      UserListIsPlain(PrivateUsers(req));
      InsertedLineIsClean("valid users", Join(PrivateUsers(req), ","));
    }
  }

  /** The section has the access that was asked for. */
  predicate AsRequested(s: SmbShare, req: Request) {
    && s.guestOk == !req.security.Private?
    && s.writeable == req.security.Public?
    && s.validUsers == (if req.security.Private? then PrivateUsers(req) else [])
    && s.writeList == req.writeList
    && s.invalidUsers == []
  }

  lemma InsertOne(out: seq<SmbShare>, cur: SmbShare, key: string, value: string, more: seq<string>)
    requires PlainKey(key) && PlainValue(value)
    ensures ReadLines(out + [cur], Tabbed([Setting(key, value)] + more))
         == ReadLines(out + [Set(cur, KeyOf(key), " " + value)], Tabbed(more))
  {
    var all := out + [cur];
    var lines := Tabbed([Setting(key, value)] + more);
    InsertedLineSets(all, key, value);
    assert lines[0] == "\t" + Setting(key, value) && lines[1..] == Tabbed(more);
    assert all[|all| - 1 := Set(cur, KeyOf(key), " " + value)] == out + [Set(cur, KeyOf(key), " " + value)];
  }

  lemma FlagValues()
    ensures Yes(" yes") && !Yes(" no")
  {
    TrimLeadingSpace(' ', "yes");
    TrimLeadingSpace(' ', "no");
    TrimKeepsSolid("yes");
    TrimKeepsSolid("no");
    assert Lower("yes") == "yes" && Lower("no") == "no";
  }

  lemma WriteListReads(out: seq<SmbShare>, cur: SmbShare, req: Request)
    requires AllUsers(req.writeList) && cur.writeList == []
    ensures ReadLines(out + [cur], Tabbed(WriteListLine(req))) == out + [cur.(writeList := req.writeList)]
  {
    hide PlainKey, PlainValue, Users, Join, Yes, Trim;
    if req.writeList == [] {
      assert cur.(writeList := req.writeList) == cur;
      assert Tabbed([]) == [];
    } else {
      var v := Join(req.writeList, ",");
      AccessKeysPlain();
      UserListIsPlain(req.writeList);
      UsersReadBack(req.writeList);
      assert [Setting("write list", v)] + [] == [Setting("write list", v)];
      InsertOne(out, cur, "write list", v, []);
      assert KeyOf("write list") == WriteList;
      assert Tabbed([]) == [];
    }
  }

  /** The lines that name users. */
  function UserLines(req: Request): seq<string> {
    match req.security
    case Public => []
    case Secure => WriteListLine(req)
    case Private => [Setting("valid users", Join(PrivateUsers(req), ","))] + WriteListLine(req)
  }

  lemma PrivateListsRead(out: seq<SmbShare>, cur: SmbShare, req: Request)
    requires ValidRequest(req) && req.security.Private? && cur.writeList == []
    ensures ReadLines(out + [cur], Tabbed(UserLines(req)))
         == out + [cur.(validUsers := PrivateUsers(req), writeList := req.writeList)]
  {
    hide PlainKey, PlainValue, Users, Join, Yes, Trim, ReadLines, Tabbed, PrivateUsers, WriteListLine;
    var v := Join(PrivateUsers(req), ",");
    AccessKeysPlain();
    PrivateUsersValid(req);
    UserListIsPlain(PrivateUsers(req));
    UsersReadBack(PrivateUsers(req));
    InsertOne(out, cur, "valid users", v, WriteListLine(req));
    assert KeyOf("valid users") == ValidUsers;
    WriteListReads(out, cur.(validUsers := PrivateUsers(req)), req);
  }

  lemma UserLinesRead(out: seq<SmbShare>, cur: SmbShare, req: Request)
    requires ValidRequest(req) && cur.validUsers == [] && cur.writeList == []
    ensures ReadLines(out + [cur], Tabbed(UserLines(req)))
         == out + [cur.(validUsers := if req.security.Private? then PrivateUsers(req) else [],
                        writeList := req.writeList)]
  {
    match req.security
    case Public =>
      assert Tabbed([]) == [];
      assert cur.(validUsers := [], writeList := []) == cur;
    case Secure =>
      WriteListReads(out, cur, req);
      assert cur.(validUsers := []) == cur;
    case Private =>
      PrivateListsRead(out, cur, req);
  }

  /** The inserted lines give a new section exactly the requested access. */
  lemma InsertedLinesRead(out: seq<SmbShare>, name: string, req: Request) returns (s: SmbShare)
    requires ValidRequest(req)
    ensures ReadLines(out + [NewShare(name)], Tabbed(AccessLines(req))) == out + [s]
    ensures AsRequested(s, req) && SameRest(s, NewShare(name)) && !s.guestOnly
  {
    hide PlainKey, PlainValue, Users, Join, Yes, Trim, ReadLines, Tabbed, PrivateUsers, WriteListLine;
    AccessKeysPlain();
    FlagValues();
    var start := NewShare(name);
    var flag := if req.security.Private? then "no" else "yes";
    var write := if req.security.Public? then "yes" else "no";
    assert AccessLines(req) == [Setting("public", flag)] + ([Setting("writeable", write)] + UserLines(req));
    InsertOne(out, start, "public", flag, [Setting("writeable", write)] + UserLines(req));
    assert KeyOf("public") == GuestOk && KeyOf("writeable") == Writeable;
    var one := Set(start, GuestOk, " " + flag);
    assert " " + flag == if req.security.Private? then " no" else " yes";
    InsertOne(out, one, "writeable", write, UserLines(req));
    var two := Set(one, Writeable, " " + write);
    assert " " + write == if req.security.Public? then " yes" else " no";
    UserLinesRead(out, two, req);
    s := two.(validUsers := if req.security.Private? then PrivateUsers(req) else [], writeList := req.writeList);
  }

  // ---- The rewriter's flags -------------------------------------------------------

  datatype Flags = Flags(inside: bool, continued: Option<bool>)

  /** The flags after one more line of the pass. */
  function NextFlags(f: Flags, line: string, header: string): Flags {
    if f.continued.Some? then f.(continued := if Continues(line) then f.continued else None)
    else match HeaderName(line)
      case Some(name) => Flags(Matches(name, header), None)
      case None => f.(continued := if Continues(line) then Some(f.inside && IsAccessLine(line)) else None)
  }

  /** What the pass writes for the line. */
  function Written(f: Flags, line: string, header: string, access: seq<string>): seq<string> {
    match f.continued
    case Some(drop) => if drop then [] else [line]
    case None =>
      match HeaderName(line)
      case Some(name) => [line] + if Matches(name, header) then Tabbed(access) else []
      case None => if f.inside && IsAccessLine(line) then [] else [line]
  }

  ghost function Left(f: Flags, lines: seq<string>, header: string, access: seq<string>): seq<string> {
    Remaining(lines, header, access, f.inside, f.continued)
  }

  lemma PassLine(f: Flags, lines: seq<string>, header: string, access: seq<string>)
    requires lines != []
    ensures Left(f, lines, header, access)
         == Written(f, lines[0], header, access) + Left(NextFlags(f, lines[0], header), lines[1..], header, access)
  {
    hide Remaining, IsAccessLine, HeaderName, Continues, Matches, Tabbed;
    var next := NextFlags(f, lines[0], header);
    assert [lines[0]] + [] == [lines[0]];
    if f.continued.None? && HeaderName(lines[0]).Some? { HeaderDoesNotContinue(lines[0]); }
    PassStep(lines, header, access, f.inside, f.continued, Written(f, lines[0], header, access), next.inside,
             next.continued);
  }

  // ---- Lines that continue others, which the reader reads like any -----------------

  predicate HasSetting(t: string) {
    !IsComment(t) && SplitOnce(t, '=').Some?
  }

  /** What the reader sets by this line. */
  function KeyAt(t: string): Key {
    match SplitOnce(t, '=')
    case Some((k, _)) => KeyOf(Lower(Trim(k)))
    case None => Unknown
  }

  /**
   A line that continues another is, to the reader too, no header of or in a section to
   rewrite; and if it is dropped it is none of the settings a rewrite is to keep.
   */
  predicate RegularLine(f: Flags, line: string, header: string) {
    f.continued.Some? ==>
      match HeaderName(line)
      case Some(name) => !f.inside && !Matches(name, header)
      case None =>
        f.continued.value && HasSetting(Trim(line)) ==>
          !KeyAt(Trim(line)).Path? && !KeyAt(Trim(line)).GuestAccountKey?
  }

  predicate RegularFrom(f: Flags, lines: seq<string>, header: string)
    decreases |lines|
  {
    lines == [] || (RegularLine(f, lines[0], header) && RegularFrom(NextFlags(f, lines[0], header), lines[1..], header))
  }

  const START := Flags(false, None)

  predicate Regular(lines: seq<string>, header: string) {
    RegularFrom(START, lines, header)
  }

  /**
   What outlives the rewrite in a section: the settings on lines that continue a kept one,
   with their keys, and the last `only guest` line.
   */
  datatype Stale = Stale(said: SmbShare, keys: set<Key>)

  /** `read only` sets what `writeable` sets. */
  function FieldOf(key: Key): Key {
    if key.ReadOnly? then Writeable else key
  }

  function Saying(stale: Stale, key: Key, v: string): Stale {
    Stale(Set(stale.said, key, v), stale.keys + {FieldOf(key)})
  }

  /** What is stale in the sections read so far, after one more trimmed line. */
  function StaleLine(f: Flags, stale: seq<Stale>, t: string): seq<Stale> {
    if f.continued == Some(true) || IsComment(t) then stale
    else if Bracketed(t).Some? then stale + [Stale(NewShare(Bracketed(t).value), {})]
    else if stale == [] then stale
    else match SplitOnce(t, '=')
      case None => stale
      case Some((k, v)) =>
        var last := stale[|stale| - 1];
        if f.continued.Some? then stale[|stale| - 1 := Saying(last, KeyOf(Lower(Trim(k))), v)]
        else if IsOnlyGuest(k) then stale[|stale| - 1 := last.(said := last.said.(guestOnly := Yes(v)))]
        else stale
  }

  function StaleFrom(f: Flags, stale: seq<Stale>, lines: seq<string>, header: string): seq<Stale>
    decreases |lines|
  {
    if lines == [] then stale
    else StaleFrom(NextFlags(f, lines[0], header), StaleLine(f, stale, Trim(lines[0])), lines[1..], header)
  }

  /** What is stale in each share, sections that are no shares left out. */
  function StaleShares(stale: seq<Stale>): seq<Stale> {
    if stale == [] then []
    else if IsReserved(stale[0].said.name) then StaleShares(stale[1..])
    else [stale[0]] + StaleShares(stale[1..])
  }

  /** What a rewrite for `header` leaves of each share's settings beside the requested ones. */
  function StaleSettings(conf: string, header: string): seq<Stale> {
    StaleShares(StaleFrom(START, [], Lines(conf), header))
  }

  // ---- The two readings, section by section ---------------------------------------

  /** The requested access, but for what a stale line says. */
  predicate AccessIs(s: SmbShare, stale: Stale, req: Request) {
    && s.guestOk == (if GuestOk in stale.keys then stale.said.guestOk else !req.security.Private?)
    && s.writeable == (if Writeable in stale.keys then stale.said.writeable else req.security.Public?)
    && s.validUsers == (if ValidUsers in stale.keys then stale.said.validUsers
                        else if req.security.Private? then PrivateUsers(req) else [])
    && s.writeList == (if WriteList in stale.keys then stale.said.writeList else req.writeList)
    && s.invalidUsers == (if InvalidUsers in stale.keys then stale.said.invalidUsers else [])
    && s.guestOnly == stale.said.guestOnly
  }

  /** Whatever a stale line says is what is requested. */
  predicate Agrees(stale: Stale, req: Request) {
    && (GuestOk in stale.keys ==> stale.said.guestOk == !req.security.Private?)
    && (Writeable in stale.keys ==> stale.said.writeable == req.security.Public?)
    && (ValidUsers in stale.keys ==>
          stale.said.validUsers == (if req.security.Private? then PrivateUsers(req) else []))
    && (WriteList in stale.keys ==> stale.said.writeList == req.writeList)
    && (InvalidUsers in stale.keys ==> stale.said.invalidUsers == [])
  }

  lemma AsRequestedIffAgrees(s: SmbShare, stale: Stale, req: Request)
    requires AccessIs(s, stale, req)
    ensures AsRequested(s, req) <==> Agrees(stale, req)
  {
    hide PrivateUsers;
  }

  lemma SayingIsSetting(s: SmbShare, stale: Stale, req: Request, key: Key, v: string)
    requires AccessIs(s, stale, req)
    ensures AccessIs(Set(s, key, v), Saying(stale, key, v), req)
  {
    hide PrivateUsers, Users, Yes, Trim;
  }

  /** The same section before and after the rewrite. */
  predicate SectionRewritten(old': SmbShare, new': SmbShare, stale: Stale, header: string, req: Request) {
    && stale.said.name == old'.name
    && if Matches(old'.name, header) then SameRest(old', new') && AccessIs(new', stale, req) else new' == old'
  }

  ghost predicate SectionsRewritten(old': seq<SmbShare>, new': seq<SmbShare>, stale: seq<Stale>,
                                    header: string, req: Request)
  {
    && |old'| == |new'| == |stale|
    && forall i | 0 <= i < |old'| :: SectionRewritten(old'[i], new'[i], stale[i], header, req)
  }

  predicate InMatching(out: seq<SmbShare>, header: string) {
    out != [] && Matches(out[|out| - 1].name, header)
  }

  /** The flags are of the section being read. */
  predicate Aligned(f: Flags, old': seq<SmbShare>, header: string) {
    f.inside == InMatching(old', header) && (f.continued == Some(true) ==> f.inside)
  }

  lemma SetKeepsName(s: SmbShare, key: Key, v: string)
    ensures Set(s, key, v).name == s.name
  {}

  /** A kept line that continues none. */
  lemma KeptLineBoth(old': SmbShare, new': SmbShare, stale: Stale, header: string, req: Request, k: string, v: string)
    requires SectionRewritten(old', new', stale, header, req)
    requires Matches(old'.name, header) ==> !IsAccessKey(NormalizeKey(k))
    ensures var key := KeyOf(Lower(Trim(k)));
            var now := if IsOnlyGuest(k) then stale.(said := stale.said.(guestOnly := Yes(v))) else stale;
            SectionRewritten(Set(old', key, v), Set(new', key, v), now, header, req)
  {
    hide IsAccessKey, NormalizeKey, KeyOf, Matches, Users, Yes, Trim, Lower, PrivateUsers, IsOnlyGuest;
    var key := KeyOf(Lower(Trim(k)));
    SetKeepsName(old', key, v);
    if Matches(old'.name, header) {
      KeptKeySetsNoAccess(new', k, v);
      SameLineSameRest(old', new', key, v);
      hide Set;
    }
  }

  /** A kept line that continues one. */
  lemma ContinuedLineBoth(old': SmbShare, new': SmbShare, stale: Stale, header: string, req: Request, key: Key,
                          v: string)
    requires SectionRewritten(old', new', stale, header, req)
    ensures SectionRewritten(Set(old', key, v), Set(new', key, v), Saying(stale, key, v), header, req)
  {
    hide Matches, AccessIs;
    SetKeepsName(old', key, v);
    SetKeepsName(stale.said, key, v);
    if Matches(old'.name, header) {
      SayingIsSetting(new', stale, req, key, v);
      SameLineSameRest(old', new', key, v);
      hide Set;
    }
  }

  /** A dropped line, which only the reading before sees. */
  lemma DroppedLineOld(old': SmbShare, new': SmbShare, stale: Stale, header: string, req: Request, key: Key, v: string)
    requires SectionRewritten(old', new', stale, header, req)
    requires Matches(old'.name, header) && !key.Path? && !key.GuestAccountKey?
    ensures SectionRewritten(Set(old', key, v), new', stale, header, req)
  {
    DroppedSetsAccess(old', key, v);
    hide AccessIs, Matches, Set;
  }

  lemma ReadHeaderBoth(f: Flags, line: string, old': seq<SmbShare>, new': seq<SmbShare>, stale: seq<Stale>,
                       header: string, req: Request)
    requires ValidRequest(req) && f.continued.None? && HeaderName(line).Some?
    requires SectionsRewritten(old', new', stale, header, req)
    ensures var readOld := ReadLine(old', Trim(line));
            && SectionsRewritten(readOld, ReadLines(new', Written(f, line, header, AccessLines(req))),
                                 StaleLine(f, stale, Trim(line)), header, req)
            && InMatching(readOld, header) == Matches(HeaderName(line).value, header)
  {
    hide AccessLines, Matches, Users, Yes, Lower, PrivateUsers, ValidRequest, Tabbed;
    var name := HeaderName(line).value;
    var inserted := if Matches(name, header) then Tabbed(AccessLines(req)) else [];
    assert [line][1..] == [];
    assert ReadLines(new', [line]) == new' + [NewShare(name)];
    ReadLinesAppend(new', [line], inserted);
    if Matches(name, header) {
      var s := InsertedLinesRead(new', name, req);
      assert SectionRewritten(NewShare(name), s, Stale(NewShare(name), {}), header, req);
    } else {
      assert [line] + [] == [line];
      assert SectionRewritten(NewShare(name), NewShare(name), Stale(NewShare(name), {}), header, req);
    }
  }

  lemma ReadOne(out: seq<SmbShare>, line: string)
    ensures ReadLines(out, [line]) == ReadLine(out, Trim(line)) && ReadLines(out, []) == out
  {
    hide ReadLine, Trim;
    assert [line][1..] == [];
    assert ReadLines(ReadLine(out, Trim(line)), []) == ReadLine(out, Trim(line));
  }

  lemma ReadSetting(out: seq<SmbShare>, t: string, k: string, v: string)
    requires !IsComment(t) && Bracketed(t).None? && out != [] && SplitOnce(t, '=') == Some((k, v))
    ensures ReadLine(out, t) == out[|out| - 1 := Set(out[|out| - 1], KeyOf(Lower(Trim(k))), v)]
    ensures KeyAt(t) == KeyOf(Lower(Trim(k)))
  {
    hide KeyOf, Lower, Trim, Set;
  }

  lemma UpdateLast(old': seq<SmbShare>, new': seq<SmbShare>, stale: seq<Stale>, o: SmbShare, n: SmbShare, st: Stale,
                   header: string, req: Request)
    requires old' != [] && SectionsRewritten(old', new', stale, header, req) && SectionRewritten(o, n, st, header, req)
    ensures SectionsRewritten(old'[|old'| - 1 := o], new'[|new'| - 1 := n], stale[|stale| - 1 := st], header, req)
  {
    hide SectionRewritten;
  }

  lemma IsAccessLineKey(line: string, k: string, v: string)
    requires SplitOnce(Trim(line), '=') == Some((k, v))
    ensures IsAccessLine(line) <==> IsAccessKey(NormalizeKey(k))
  {}

  predicate Drops(f: Flags, line: string) {
    f.continued == Some(true) || (f.continued.None? && f.inside && IsAccessLine(line))
  }

  lemma WrittenPlain(f: Flags, line: string, header: string, access: seq<string>)
    requires HeaderName(line).None?
    ensures Written(f, line, header, access) == if Drops(f, line) then [] else [line]
  {
    hide HeaderName, IsAccessLine;
  }

  /** Which keys a line can have that is dropped, and one that is kept. */
  lemma LineKey(f: Flags, line: string, k: string, v: string, header: string)
    requires SplitOnce(Trim(line), '=') == Some((k, v)) && !IsComment(Trim(line)) && RegularLine(f, line, header)
    requires HeaderName(line).None?
    ensures var key := KeyOf(Lower(Trim(k)));
            && (Drops(f, line) ==> !key.Path? && !key.GuestAccountKey?)
            && (f.continued.None? && f.inside && !Drops(f, line) ==> !IsAccessKey(NormalizeKey(k)))
            && (f.continued.None? && Drops(f, line) ==> !IsOnlyGuest(k))
  {
    IsAccessLineKey(line, k, v);
    if IsAccessKey(NormalizeKey(k)) { AccessKeyIsNoRest(k); }
    hide IsAccessLine, IsAccessKey, NormalizeKey, KeyOf, Trim, Lower, IsOnlyGuest, HeaderName, IsComment, SplitOnce;
  }

  /** What a line leaves stale. */
  lemma LineStale(f: Flags, stale: seq<Stale>, t: string, k: string, v: string)
    requires !IsComment(t) && Bracketed(t).None? && SplitOnce(t, '=') == Some((k, v)) && stale != []
    ensures var last := stale[|stale| - 1];
            StaleLine(f, stale, t)
              == stale[|stale| - 1 :=
                         if f.continued == Some(true) then last
                         else if f.continued.Some? then Saying(last, KeyOf(Lower(Trim(k))), v)
                         else if IsOnlyGuest(k) then last.(said := last.said.(guestOnly := Yes(v)))
                         else last]
  {
    hide KeyOf, Trim, Lower, IsOnlyGuest, Saying, Yes, Bracketed, SplitOnce, IsComment;
    assert stale[|stale| - 1 := stale[|stale| - 1]] == stale;
  }

  lemma SectionAt(old': seq<SmbShare>, new': seq<SmbShare>, stale: seq<Stale>, header: string, req: Request)
    requires old' != [] && SectionsRewritten(old', new', stale, header, req)
    ensures |old'| == |new'| == |stale|
    ensures var last := |old'| - 1; SectionRewritten(old'[last], new'[last], stale[last], header, req)
    ensures new'[|old'| - 1 := new'[|old'| - 1]] == new'
  {
    hide SectionRewritten;
  }

  lemma NameStays(out: seq<SmbShare>, key: Key, v: string, header: string)
    requires out != []
    ensures InMatching(out[|out| - 1 := Set(out[|out| - 1], key, v)], header) == InMatching(out, header)
  {
    SetKeepsName(out[|out| - 1], key, v);
    hide Set, Matches;
  }

  /** One line that is no header, read before and after. */
  lemma ReadSettingBoth(f: Flags, line: string, k: string, v: string, old': seq<SmbShare>, new': seq<SmbShare>,
                        stale: seq<Stale>, header: string, req: Request)
    requires HeaderName(line).None? && RegularLine(f, line, header) && Aligned(f, old', header) && old' != []
    requires SectionsRewritten(old', new', stale, header, req)
    requires !IsComment(Trim(line)) && SplitOnce(Trim(line), '=') == Some((k, v))
    ensures SectionsRewritten(ReadLine(old', Trim(line)), ReadLines(new', Written(f, line, header, AccessLines(req))),
                              StaleLine(f, stale, Trim(line)), header, req)
    ensures InMatching(ReadLine(old', Trim(line)), header) == InMatching(old', header)
  {
    hide *;
    SectionAt(old', new', stale, header, req);
    var (key, last) := (KeyOf(Lower(Trim(k))), |old'| - 1);
    NoHeaderTrimmed(line);
    ReadSetting(old', Trim(line), k, v);
    ReadSetting(new', Trim(line), k, v);
    WrittenPlain(f, line, header, AccessLines(req));
    ReadOne(new', line);
    LineKey(f, line, k, v, header);
    LineStale(f, stale, Trim(line), k, v);
    NameStays(old', key, v, header);
    if Drops(f, line) {
      DroppedInMatching(f, line, old', header);
      DroppedLineOld(old'[last], new'[last], stale[last], header, req, key, v);
      UpdateLast(old', new', stale, Set(old'[last], key, v), new'[last], stale[last], header, req);
    } else if f.continued.Some? {
      KeptContinues(f, line);
      ContinuedLineBoth(old'[last], new'[last], stale[last], header, req, key, v);
      UpdateLast(old', new', stale, Set(old'[last], key, v), Set(new'[last], key, v), Saying(stale[last], key, v),
                 header, req);
    } else {
      MatchingIsInside(f, old', header);
      KeptLineBoth(old'[last], new'[last], stale[last], header, req, k, v);
      var now := if IsOnlyGuest(k) then stale[last].(said := stale[last].said.(guestOnly := Yes(v))) else stale[last];
      UpdateLast(old', new', stale, Set(old'[last], key, v), Set(new'[last], key, v), now, header, req);
    }
  }

  lemma DroppedInMatching(f: Flags, line: string, old': seq<SmbShare>, header: string)
    requires Drops(f, line) && Aligned(f, old', header) && old' != []
    ensures Matches(old'[|old'| - 1].name, header) && (f.continued.Some? ==> f.continued == Some(true))
  {
    hide IsAccessLine, Matches;
  }

  lemma NoHeaderTrimmed(line: string)
    ensures HeaderName(line) == Bracketed(Trim(line))
  {}

  lemma KeptContinues(f: Flags, line: string)
    requires !Drops(f, line)
    ensures f.continued != Some(true)
  {}

  lemma MatchingIsInside(f: Flags, old': seq<SmbShare>, header: string)
    requires Aligned(f, old', header) && old' != []
    ensures f.inside == Matches(old'[|old'| - 1].name, header)
  {
    hide Matches;
  }

  lemma ReadPlainBoth(f: Flags, line: string, old': seq<SmbShare>, new': seq<SmbShare>, stale: seq<Stale>,
                      header: string, req: Request)
    requires HeaderName(line).None? && RegularLine(f, line, header) && Aligned(f, old', header)
    requires SectionsRewritten(old', new', stale, header, req)
    ensures SectionsRewritten(ReadLine(old', Trim(line)), ReadLines(new', Written(f, line, header, AccessLines(req))),
                              StaleLine(f, stale, Trim(line)), header, req)
    ensures InMatching(ReadLine(old', Trim(line)), header) == InMatching(old', header)
  {
    var t := Trim(line);
    if !IsComment(t) && old' != [] && SplitOnce(t, '=').Some? {
      var (k, v) := SplitOnce(t, '=').value;
      ReadSettingBoth(f, line, k, v, old', new', stale, header, req);
    } else {
      ReadOne(new', line);
      hide Trim, AccessLines, KeyOf, Lower, Matches, IsAccessLine, RegularLine, SectionRewritten;
    }
  }

  lemma {:induction false} EditedReads(f: Flags, lines: seq<string>, old': seq<SmbShare>, new': seq<SmbShare>,
                                       stale: seq<Stale>, header: string, req: Request)
    requires ValidRequest(req) && RegularFrom(f, lines, header) && Aligned(f, old', header)
    requires SectionsRewritten(old', new', stale, header, req)
    ensures SectionsRewritten(ReadLines(old', lines), ReadLines(new', Left(f, lines, header, AccessLines(req))),
                              StaleFrom(f, stale, lines, header), header, req)
    decreases |lines|
  {
    hide AccessLines, Matches, IsAccessLine, SectionsRewritten, Trim, ReadLine, StaleLine, Written, RegularLine,
         InMatching, HeaderName, Continues;
    if lines == [] {
    } else {
      var (line, next, access) := (lines[0], NextFlags(f, lines[0], header), AccessLines(req));
      PassLine(f, lines, header, access);
      ReadLinesAppend(new', Written(f, line, header, access), Left(next, lines[1..], header, access));
      if f.continued.None? && HeaderName(line).Some? {
        ReadHeaderBoth(f, line, old', new', stale, header, req);
      } else if HeaderName(line).Some? {
        ReadOtherHeader(f, line, old', new', stale, header, req);
      } else {
        ReadPlainBoth(f, line, old', new', stale, header, req);
      }
      EditedReads(next, lines[1..], ReadLine(old', Trim(line)), ReadLines(new', Written(f, line, header, access)),
                  StaleLine(f, stale, Trim(line)), header, req);
    }
  }

  /** A header only the reader sees, outside the sections to rewrite. */
  lemma ReadOtherHeader(f: Flags, line: string, old': seq<SmbShare>, new': seq<SmbShare>, stale: seq<Stale>,
                        header: string, req: Request)
    requires f.continued.Some? && HeaderName(line).Some? && RegularLine(f, line, header) && Aligned(f, old', header)
    requires SectionsRewritten(old', new', stale, header, req)
    ensures var readOld := ReadLine(old', Trim(line));
            && SectionsRewritten(readOld, ReadLines(new', Written(f, line, header, AccessLines(req))),
                                 StaleLine(f, stale, Trim(line)), header, req)
            && !InMatching(readOld, header) && !f.inside
  {
    hide AccessLines, Matches, Trim, AccessIs, Tabbed;
    var share := NewShare(HeaderName(line).value);
    ReadOne(new', line);
    NoHeaderTrimmed(line);
    assert SectionRewritten(share, share, Stale(share, {}), header, req);
  }

  lemma SectionsSplit(old': seq<SmbShare>, new': seq<SmbShare>, stale: seq<Stale>, header: string, req: Request)
    requires old' != [] && SectionsRewritten(old', new', stale, header, req)
    ensures new' != [] && stale != [] && SectionRewritten(old'[0], new'[0], stale[0], header, req)
    ensures new'[0].name == old'[0].name == stale[0].said.name && new'[0].guestAccount == old'[0].guestAccount
    ensures SectionsRewritten(old'[1..], new'[1..], stale[1..], header, req)
  {
    hide AccessIs, Matches;
    assert SectionRewritten(old'[0], new'[0], stale[0], header, req);
  }

  lemma {:induction false} SameGuestAccount(old': seq<SmbShare>, new': seq<SmbShare>, stale: seq<Stale>,
                                            header: string, req: Request)
    requires SectionsRewritten(old', new', stale, header, req)
    ensures GuestAccount(old') == GuestAccount(new')
  {
    if old' == [] {
    } else {
      SectionsSplit(old', new', stale, header, req);
      SameGuestAccount(old'[1..], new'[1..], stale[1..], header, req);
    }
  }

  lemma SectionsCons(o: SmbShare, n: SmbShare, st: Stale, old': seq<SmbShare>, new': seq<SmbShare>, stale: seq<Stale>,
                     header: string, req: Request)
    requires SectionRewritten(o, n, st, header, req) && SectionsRewritten(old', new', stale, header, req)
    ensures SectionsRewritten([o] + old', [n] + new', [st] + stale, header, req)
  {
    hide SectionRewritten;
  }

  lemma AccountRewritten(o: SmbShare, n: SmbShare, st: Stale, account: string, header: string, req: Request)
    requires SectionRewritten(o, n, st, header, req)
    ensures SectionRewritten(o.(guestAccount := account), n.(guestAccount := account), st, header, req)
  {
    hide Matches, PrivateUsers;
  }

  lemma {:induction false} SharesRewritten(old': seq<SmbShare>, new': seq<SmbShare>, stale: seq<Stale>, account: string,
                                           header: string, req: Request)
    requires SectionsRewritten(old', new', stale, header, req)
    ensures SectionsRewritten(Shares(old', account), Shares(new', account), StaleShares(stale), header, req)
  {
    if old' == [] {
    } else {
      SectionsSplit(old', new', stale, header, req);
      AccountRewritten(old'[0], new'[0], stale[0], account, header, req);
      hide SectionsRewritten, SectionRewritten, IsReserved;
      SharesRewritten(old'[1..], new'[1..], stale[1..], account, header, req);
      SectionsCons(old'[0].(guestAccount := account), new'[0].(guestAccount := account), stale[0],
                   Shares(old'[1..], account), Shares(new'[1..], account), StaleShares(stale[1..]), header, req);
    }
  }

  lemma {:induction false} ReadChomped(out: seq<SmbShare>, lines: seq<string>)
    ensures ReadLines(out, Chomped(lines)) == ReadLines(out, lines)
    decreases |lines|
  {
    if lines == [] {
    } else {
      TrimChompCr(lines[0]);
      assert Chomped(lines)[1..] == Chomped(lines[1..]);
      ReadChomped(ReadLine(out, Trim(lines[0])), lines[1..]);
    }
  }

  // ---- Confs without continued lines -----------------------------------------------

  predicate NoContinuation(lines: seq<string>) {
    forall l | l in lines :: !Continues(l)
  }

  predicate NothingStale(stale: seq<Stale>) {
    forall s | s in stale :: s.keys == {}
  }

  lemma FreshLine(f: Flags, stale: seq<Stale>, line: string, header: string)
    requires f.continued.None? && !Continues(line) && NothingStale(stale)
    ensures NextFlags(f, line, header).continued.None? && NothingStale(StaleLine(f, stale, Trim(line)))
  {
    hide Continues, HeaderName, Matches, IsAccessLine, Trim, IsOnlyGuest, Yes;
  }

  lemma {:induction false} PlainConfIsRegular(f: Flags, stale: seq<Stale>, lines: seq<string>, header: string)
    requires f.continued.None? && NoContinuation(lines) && NothingStale(stale)
    ensures RegularFrom(f, lines, header) && NothingStale(StaleFrom(f, stale, lines, header))
    decreases |lines|
  {
    hide NextFlags, StaleLine, Continues, HeaderName, Trim;
    if lines == [] {
    } else {
      assert lines[0] in lines;
      FreshLine(f, stale, lines[0], header);
      PlainConfIsRegular(NextFlags(f, lines[0], header), StaleLine(f, stale, Trim(lines[0])), lines[1..], header);
    }
  }

  lemma NothingStaleAtFirst()
    ensures NothingStale([])
  {}

  lemma {:induction false} StaleSharesKeep(stale: seq<Stale>)
    requires NothingStale(stale)
    ensures NothingStale(StaleShares(stale))
  {
    if stale == [] {
    } else {
      StaleSharesKeep(stale[1..]);
    }
  }

  /** A conf without continued lines is regular, and of its settings only `only guest` lines go stale. */
  lemma UncontinuedConf(conf: string, header: string)
    requires NoContinuation(Lines(conf))
    ensures Regular(Lines(conf), header) && NothingStale(StaleSettings(conf, header))
  {
    hide RegularFrom, NothingStale, StaleFrom;
    NothingStaleAtFirst();
    PlainConfIsRegular(START, [], Lines(conf), header);
    StaleSharesKeep(StaleFrom(START, [], Lines(conf), header));
  }

  /** A share with the requested access has the requested mode, unless guests may write after all. */
  lemma ModeIffGuestsCannotWrite(s: SmbShare, req: Request)
    requires ValidRequest(req) && AsRequested(s, req)
    ensures s.Mode() == req.security.AsStr() <==> !(req.security.Secure? && s.guestAccount in req.writeList)
  {
    hide PrivateUsers;
    assert "public" != "secure" && "secure" != "private" && "public" != "private";
  }

  // ---- The rewritten conf, read ------------------------------------------------------

  /** The rewritten text is read as the edited lines are. */
  lemma RewrittenIsRead(conf: string, req: Request)
    requires ValidRequest(req) && RewriteText(conf, req.share, AccessLines(req)).Ok?
    ensures var out := ReadLines([], Edited(Lines(conf), Lower(req.share), AccessLines(req), false));
            ParseText(RewriteText(conf, req.share, AccessLines(req)).value) == Shares(out, GuestAccount(out))
  {
    hide AccessLines, Edited, ReadLines;
    var header, access, lines := Lower(req.share), AccessLines(req), Lines(conf);
    var edited := Edited(lines, header, access, false);
    AccessLinesClean(req);
    LinesAreOneLine(conf);
    EditedOneLine(lines, header, access, false);
    RewrittenLines(conf, req.share, access);
    LinesUnlines(edited);
    ReadChomped([], edited);
  }

  /**
   Reading the rewritten conf finds the same shares in the same order. Those the request
   names have their path and guest account as before and just the requested access, but
   for what a stale line says; the others are as before.
   */
  lemma RequestedAccessIsParsed(conf: string, req: Request)
    requires ValidRequest(req) && Regular(Lines(conf), Lower(req.share))
    requires RewriteText(conf, req.share, AccessLines(req)).Ok?
    ensures SectionsRewritten(ParseText(conf),
                              ParseText(RewriteText(conf, req.share, AccessLines(req)).value),
                              StaleSettings(conf, Lower(req.share)), Lower(req.share), req)
  {
    hide AccessLines, Edited, ReadLines, SectionRewritten, StaleFrom, StaleShares, RegularFrom, RewriteText;
    var header, access, lines := Lower(req.share), AccessLines(req), Lines(conf);
    var edited := Edited(lines, header, access, false);
    RewrittenIsRead(conf, req);
    EditedReads(START, lines, [], [], [], header, req);
    var stale := StaleFrom(START, [], lines, header);
    SameGuestAccount(ReadLines([], lines), ReadLines([], edited), stale, header, req);
    SharesRewritten(ReadLines([], lines), ReadLines([], edited), stale, GuestAccount(ReadLines([], lines)),
                    header, req);
  }

  /** What the rewrite makes of the `i`th share, a share the request names. */
  lemma RequestedShare(conf: string, req: Request, i: nat) returns (after: SmbShare, stale: Stale)
    requires ValidRequest(req) && Regular(Lines(conf), Lower(req.share))
    requires RewriteText(conf, req.share, AccessLines(req)).Ok?
    requires i < |ParseText(conf)| && Matches(ParseText(conf)[i].name, Lower(req.share))
    ensures var shares := ParseText(RewriteText(conf, req.share, AccessLines(req)).value);
            |shares| == |ParseText(conf)| && after == shares[i]
    ensures |StaleSettings(conf, Lower(req.share))| == |ParseText(conf)|
            && stale == StaleSettings(conf, Lower(req.share))[i]
    ensures SameRest(ParseText(conf)[i], after) && AccessIs(after, stale, req)
  {
    hide AccessLines, RewriteText, ParseText, PrivateUsers, Matches, StaleSettings, AccessIs, SameRest, Regular;
    RequestedAccessIsParsed(conf, req);
    after := ParseText(RewriteText(conf, req.share, AccessLines(req)).value)[i];
    stale := StaleSettings(conf, Lower(req.share))[i];
    assert SectionRewritten(ParseText(conf)[i], after, stale, Lower(req.share), req);
  }

  /** A rewritten share has the requested access exactly if what the continued lines kept in its section say agrees. */
  lemma AccessIffStaleAgrees(conf: string, req: Request, i: nat)
    requires ValidRequest(req) && Regular(Lines(conf), Lower(req.share))
    requires RewriteText(conf, req.share, AccessLines(req)).Ok?
    requires i < |ParseText(conf)| && Matches(ParseText(conf)[i].name, Lower(req.share))
    ensures var after := ParseText(RewriteText(conf, req.share, AccessLines(req)).value);
            && |after| == |ParseText(conf)| == |StaleSettings(conf, Lower(req.share))|
            && (AsRequested(after[i], req) <==> Agrees(StaleSettings(conf, Lower(req.share))[i], req))
  {
    hide AccessLines, RewriteText, ParseText, Matches, StaleSettings, AccessIs, SameRest, Regular, AsRequested, Agrees;
    var after, stale := RequestedShare(conf, req, i);
    AsRequestedIffAgrees(after, stale, req);
  }

  /** If it agrees, the share has the requested mode exactly when its writers do not include the guest account. */
  lemma RequestedModeIsParsedMode(conf: string, req: Request, i: nat)
    requires ValidRequest(req) && Regular(Lines(conf), Lower(req.share))
    requires RewriteText(conf, req.share, AccessLines(req)).Ok?
    requires i < |ParseText(conf)| && Matches(ParseText(conf)[i].name, Lower(req.share))
    ensures var after := ParseText(RewriteText(conf, req.share, AccessLines(req)).value);
            && |after| == |ParseText(conf)| == |StaleSettings(conf, Lower(req.share))|
            && (Agrees(StaleSettings(conf, Lower(req.share))[i], req) ==>
                  && after[i].writeList == req.writeList
                  && after[i].validUsers == (if req.security.Private? then PrivateUsers(req) else [])
                  && (after[i].Mode() == req.security.AsStr()
                      <==> !(req.security.Secure? && ParseText(conf)[i].guestAccount in req.writeList)))
  {
    hide AccessLines, RewriteText, ParseText, PrivateUsers, Matches, StaleSettings, AccessIs, Regular, Agrees;
    var after, stale := RequestedShare(conf, req, i);
    AsRequestedIffAgrees(after, stale, req);
    if Agrees(stale, req) { ModeIffGuestsCannotWrite(after, req); }
  }

  /**
   A rewritten share still makes every connection a guest's exactly when the last line kept in
   its section that the reader takes for guest only says yes. A line that continues none is
   such a line only if its key is `only guest`.
   */
  lemma GuestOnlyIffStaleLine(conf: string, req: Request, i: nat)
    requires ValidRequest(req) && Regular(Lines(conf), Lower(req.share))
    requires RewriteText(conf, req.share, AccessLines(req)).Ok?
    requires i < |ParseText(conf)| && Matches(ParseText(conf)[i].name, Lower(req.share))
    ensures var after := ParseText(RewriteText(conf, req.share, AccessLines(req)).value);
            && |after| == |ParseText(conf)| == |StaleSettings(conf, Lower(req.share))|
            && (after[i].guestOnly <==> StaleSettings(conf, Lower(req.share))[i].said.guestOnly)
  {
    hide AccessLines, RewriteText, ParseText, PrivateUsers, Matches, StaleSettings, SameRest, Regular;
    var after, stale := RequestedShare(conf, req, i);
  }
}
