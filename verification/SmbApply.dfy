/**
 The two-file SMB transaction (`apply_in`, src/smb_share_write.rs): the cfg, then
 the live conf, then a reload; a failure puts both files back.
 */
module SmbApply {
  import opened Wrappers
  import opened Text
  import opened SmbRewrite
  import opened SmbRequest
  import opened SmbMode
  import opened ShareCfg

  datatype File = File(text: string, mode: nat)

  /** Which host operations fail; a file is read, examined or replaced as a whole. */
  datatype Faults = Faults(
    readCfg: bool, readConf: bool, statCfg: bool, statConf: bool,
    writeCfg: bool, writeConf: bool, reload: bool, restoreCfg: bool, restoreConf: bool)

  datatype Failure = NoCfg | NoConf | NoSection | IoError | ConfWrite(restored: bool) | Reload(restored: bool)

  /** The two files as the transaction finds and leaves them. */
  class SmbFiles {
    var cfg: Option<File>
    var conf: Option<File>

    constructor (cfg: Option<File>, conf: Option<File>)
      ensures this.cfg == cfg && this.conf == conf
    {
      this.cfg := cfg;
      this.conf := conf;
    }

    /** `safefs::replace_file`: all of the new file or, on a fault, all of the old. */
    method ReplaceCfg(text: string, mode: nat, fault: bool) returns (ok: bool)
      modifies this`cfg
      ensures ok == !fault
      ensures cfg == if ok then Some(File(text, mode)) else old(cfg)
    {
      ok := !fault;
      if ok { cfg := Some(File(text, mode)); }
    }

    method ReplaceConf(text: string, mode: nat, fault: bool) returns (ok: bool)
      modifies this`conf
      ensures ok == !fault
      ensures conf == if ok then Some(File(text, mode)) else old(conf)
    {
      ok := !fault;
      if ok { conf := Some(File(text, mode)); }
    }

    /** Whether applying `req` gets as far as writing anything. */
    predicate Ready(req: Request, faults: Faults)
      reads this
    {
      && !faults.readCfg && cfg.Some? && !faults.readConf && conf.Some?
      && RewriteText(conf.value.text, req.share, AccessLines(req)).Ok?
      && !faults.statCfg && !faults.statConf && !faults.writeCfg
    }

    /**
     Success is all of both edits, modes kept. Any failure whose restoring writes
     succeed leaves both files exactly as they were; only a restore can fail otherwise.
     */
    method ApplyIn(req: Request, faults: Faults) returns (r: Result<seq<string>, Failure>)
      modifies this
      ensures r.Ok? <==> old(Ready(req, faults)) && !faults.writeConf && !faults.reload
      ensures r.Ok? ==>
                && r.value == AccessLines(req)
                && cfg == Some(File(Unlines(CfgLines(CfgUpdates(req), Lines(old(cfg).value.text))),
                                    old(cfg).value.mode))
                && conf == Some(File(RewriteText(old(conf).value.text, req.share, AccessLines(req)).value,
                                     old(conf).value.mode))
      ensures r.Err? && !faults.restoreCfg && !faults.restoreConf ==> cfg == old(cfg) && conf == old(conf)
      ensures r.Err? && r.error.ConfWrite? ==> r.error.restored == !faults.restoreCfg
      ensures r.Err? && r.error.Reload? ==> r.error.restored == (!faults.restoreCfg && !faults.restoreConf)
      ensures r.Err? && !(r.error.ConfWrite? || r.error.Reload?) ==> cfg == old(cfg) && conf == old(conf)
      ensures r.Err? && (r.error.ConfWrite? || r.error.Reload?) && r.error.restored ==>
                cfg == old(cfg) && conf == old(conf)
    {
      if faults.readCfg { return Err(IoError); }
      if cfg.None? { return Err(NoCfg); }
      var oldCfg := cfg.value;
      var newCfg := WriteCfgKeys(oldCfg.text, CfgUpdates(req));
      if faults.readConf { return Err(IoError); }
      if conf.None? { return Err(NoConf); }
      var oldConf := conf.value;
      var access := AccessLines(req);
      var newConf := RewriteSection(oldConf.text, req.share, access);
      if newConf.Err? { return Err(NoSection); }
      if faults.statCfg || faults.statConf { return Err(IoError); }
      var wrote := ReplaceCfg(newCfg, oldCfg.mode, faults.writeCfg);
      if !wrote { return Err(IoError); }
      wrote := ReplaceConf(newConf.value, oldConf.mode, faults.writeConf);
      if !wrote {
        var undone := ReplaceCfg(oldCfg.text, oldCfg.mode, faults.restoreCfg);
        return Err(ConfWrite(undone));
      }
      if faults.reload {
        var undone := ReplaceCfg(oldCfg.text, oldCfg.mode, faults.restoreCfg);
        var alsoUndone := ReplaceConf(oldConf.text, oldConf.mode, faults.restoreConf);
        return Err(Reload(undone && alsoUndone));
      }
      r := Ok(access);
    }
  }

  lemma {:induction false} JoinPlain(names: seq<string>)
    requires AllUsers(names)
    ensures PlainText(Join(names, ","))
  {
    if names == [] {
    } else {
      JoinedUsers(names);
    }
  }

  /** The three requested keys print and parse without loss. */
  lemma CfgUpdatesPlain(req: Request)
    requires ValidRequest(req)
    ensures PlainUpdates(CfgUpdates(req))
  {
    hide Join, PlainText, PlainKeyword;
    UsersAreValid(req);
    JoinPlain(req.readList);
    JoinPlain(req.writeList);
    SecurityPlain(req.security);
    KeywordsPlain();
    KeywordsDiffer();
    hide ValidRequest;
  }

  lemma UsersAreValid(req: Request)
    requires ValidRequest(req)
    ensures AllUsers(req.readList) && AllUsers(req.writeList)
  {
    hide ValidUser, ValidShareName;
    assert forall u | u in req.readList :: u in req.readList + req.writeList;
    assert forall u | u in req.writeList :: u in req.readList + req.writeList;
  }

  lemma KeywordsPlain()
    ensures PlainKeyword("shareSecurity") && PlainKeyword("shareReadList") && PlainKeyword("shareWriteList")
  {}

  lemma KeywordsDiffer()
    ensures "shareSecurity" != "shareReadList" && "shareReadList" != "shareWriteList"
    ensures "shareSecurity" != "shareWriteList"
  {
    assert "shareSecurity"[5] != "shareReadList"[5];
    assert |"shareReadList"| < |"shareWriteList"|;
  }

  lemma SecurityPlain(s: Security)
    ensures PlainText(s.AsStr())
  {}

  /** What a successful write says, as the ini reader reads it. */
  lemma AppliedCfgReadsBack(text: string, req: Request)
    requires ValidRequest(req) && SectionFree(Lines(text))
    ensures ReadIni([Section("", map[])], Lines(Unlines(CfgLines(CfgUpdates(req), Lines(text)))))
         == [Section("", Values(map[], Lines(text))["shareWriteList" := Join(req.writeList, ",")]
                           ["shareReadList" := Join(req.readList, ",")]
                           ["shareSecurity" := req.security.AsStr()])]
  {
    hide Values, PlainUpdates, CfgLines, Join;
    CfgUpdatesPlain(req);
    CfgReadsBack(text, CfgUpdates(req));
    var u := CfgUpdates(req);
    var before := Values(map[], Lines(text));
    assert u[1..][1..] == [u[2]] && u[1..] == [u[1], u[2]];
    assert UpdateMap([u[2]]) == map[u[2].0 := u[2].1];
    assert before + UpdateMap(u) == before[u[2].0 := u[2].1][u[1].0 := u[1].1][u[0].0 := u[0].1];
  }
}
