/** What recovery accepts and keeps, over the bytes of the files alone (recover,
    internal/wal/wal.go). Nothing here supposes that the directory is undamaged. */
module WalOpens {
  import opened RecordFormat
  import opened SegmentScan
  import opened Wal

  /** The file holds exactly these records; the last one may have a torn write behind them. */
  ghost predicate Holding(cfg: Config, f: File, rs: seq<Record>, last: bool) {
    exists t :: Prefixed(cfg.crc, cfg.maxRecord, f.bytes, rs, t) && (t == [] || (last && Tear(cfg.crc, cfg.maxRecord, t)))
  }

  /** A record of the file fails its checksum with bytes behind it, or is above the limit. */
  ghost predicate Damaged(cfg: Config, f: File) {
    exists rs, t :: Prefixed(cfg.crc, cfg.maxRecord, f.bytes, rs, t)
                    && (Damage(cfg.crc, cfg.maxRecord, t) || AboveLimit(cfg.crc, cfg.maxRecord, t))
  }

  /** Each file holds its run of records, and each link names the last one in front of it. */
  ghost predicate OpensAs(cfg: Config, files: seq<File>, runs: seq<seq<Record>>) {
    && |runs| == |files|
    && (forall i :: 0 <= i < |files| ==> Holding(cfg, files[i], runs[i], i == |files| - 1))
    && (forall i, j :: 0 <= i < |files| && 0 <= j < |files| && j == i + 1 ==>
          files[i].base + |runs[i]| == files[j].prevEnd + 1)
  }

  lemma HoldingScans(cfg: Config, f: File, rs: seq<Record>, last: bool)
    requires ValidConfig(cfg) && Holding(cfg, f, rs, last)
    ensures var good := |Frames(cfg.crc, rs)|;
            && (ScanFile(cfg, f) == Clean(|rs|, good) || (last && ScanFile(cfg, f) == Torn(|rs|, good)))
            && SegOf(cfg, f) == Seg(f.base, f.prevEnd, good, |rs|)
            && good <= |f.bytes| && f.bytes[..good] == Frames(cfg.crc, rs) && Within(cfg.maxRecord, rs)
  {
    hide ScanBytes, Tear, Frames;
    var t :| Prefixed(cfg.crc, cfg.maxRecord, f.bytes, rs, t) && (t == [] || (last && Tear(cfg.crc, cfg.maxRecord, t)));
    ScanVerdict(cfg.crc, cfg.maxRecord, rs, t);
  }

  lemma ScansHold(cfg: Config, f: File, last: bool)
    requires ValidConfig(cfg) && (ScanFile(cfg, f).Clean? || (last && ScanFile(cfg, f).Torn?))
    ensures Holding(cfg, f, Parse(cfg.crc, cfg.maxRecord, f.bytes), last)
  {
    hide ScanBytes, Parse, Tear, Damage, AboveLimit;
    var rs := Parse(cfg.crc, cfg.maxRecord, f.bytes);
    var t := ParseSplits(cfg.crc, cfg.maxRecord, f.bytes);
    assert Prefixed(cfg.crc, cfg.maxRecord, f.bytes, rs, t);
    ScanVerdict(cfg.crc, cfg.maxRecord, rs, t);
  }

  function Runs(cfg: Config, files: seq<File>): (runs: seq<seq<Record>>)
    ensures |runs| == |files|
    ensures forall i :: 0 <= i < |runs| ==> runs[i] == Parse(cfg.crc, cfg.maxRecord, files[i].bytes)
  {
    seq(|files|, i requires 0 <= i < |files| => Parse(cfg.crc, cfg.maxRecord, files[i].bytes))
  }

  /** Recovery accepts a directory if and only if every file is nothing but intact records,
      the last one up to a torn write, and the links fit. */
  lemma OpenableIff(cfg: Config, files: seq<File>)
    requires ValidConfig(cfg)
    ensures Openable(cfg, files) <==> exists runs :: OpensAs(cfg, files, runs)
  {
    hide ScanBytes, Parse, Holding;
    if Openable(cfg, files) {
      var runs := Runs(cfg, files);
      forall i | 0 <= i < |files|
        ensures Holding(cfg, files[i], runs[i], i == |files| - 1)
        ensures ScanFile(cfg, files[i]).count == |runs[i]|
      {
        ScansHold(cfg, files[i], i == |files| - 1);
        HoldingScans(cfg, files[i], runs[i], i == |files| - 1);
      }
      assert OpensAs(cfg, files, runs);
    }
    if runs :| OpensAs(cfg, files, runs) {
      forall i | 0 <= i < |files|
        ensures ScanFile(cfg, files[i]).Clean? || (ScanFile(cfg, files[i]).Torn? && i == |files| - 1)
        ensures ScanFile(cfg, files[i]).count == |runs[i]|
      {
        HoldingScans(cfg, files[i], runs[i], i == |files| - 1);
      }
    }
  }

  /** ... so a damaged file is refused, wherever it stands. */
  lemma DamageRefused(cfg: Config, files: seq<File>, i: nat)
    requires ValidConfig(cfg) && i < |files| && Damaged(cfg, files[i])
    ensures ScanFile(cfg, files[i]).Corrupt? || ScanFile(cfg, files[i]).TooLarge?
    ensures !Openable(cfg, files)
  {
    hide ScanBytes, Damage, AboveLimit;
    var rs, t :| Prefixed(cfg.crc, cfg.maxRecord, files[i].bytes, rs, t)
                 && (Damage(cfg.crc, cfg.maxRecord, t) || AboveLimit(cfg.crc, cfg.maxRecord, t));
    ScanVerdict(cfg.crc, cfg.maxRecord, rs, t);
  }

  /** Recovery keeps exactly those records: of every file it leaves their frames, and the
      segments in memory describe them. */
  lemma RecoveryKeeps(cfg: Config, s: State, runs: seq<seq<Record>>, i: nat)
    requires ValidConfig(cfg) && OpensAs(cfg, s.disk.files, runs) && i < |runs|
    ensures var s' := DoRecover(cfg, s);
            && i < |s'.disk.files| && s'.disk.files[i].base == s.disk.files[i].base
            && s'.disk.files[i].prevEnd == s.disk.files[i].prevEnd
            && s'.disk.files[i].bytes == Frames(cfg.crc, runs[i])
            && i < |s'.mem.value.segs|
            && s'.mem.value.segs[i] == Seg(s.disk.files[i].base, s.disk.files[i].prevEnd, |Frames(cfg.crc, runs[i])|, |runs[i]|)
  {
    hide ScanBytes, Frames, Holding, LastRecord, Contents;
    HoldingScans(cfg, s.disk.files[i], runs[i], i == |runs| - 1);
    CleanKept(cfg, s.disk.files, runs, i);
    var f := DoRecover(cfg, s).disk.files[i];
    RunScans(cfg, f, runs[i]);
  }

  lemma CleanKept(cfg: Config, files: seq<File>, runs: seq<seq<Record>>, i: nat)
    requires ValidConfig(cfg) && OpensAs(cfg, files, runs) && i < |runs|
    ensures Trimmed(cfg, files)[i].bytes == Frames(cfg.crc, runs[i])
    ensures Within(cfg.maxRecord, runs[i])
  {
    hide ScanBytes, Frames, Tear;
    HoldingScans(cfg, files[i], runs[i], i == |runs| - 1);
    var t :| Prefixed(cfg.crc, cfg.maxRecord, files[i].bytes, runs[i], t)
             && (t == [] || (i == |runs| - 1 && Tear(cfg.crc, cfg.maxRecord, t)));
  }

  lemma RunScans(cfg: Config, f: File, rs: seq<Record>)
    requires ValidConfig(cfg) && Within(cfg.maxRecord, rs) && f.bytes == Frames(cfg.crc, rs)
    ensures SegOf(cfg, f) == Seg(f.base, f.prevEnd, |Frames(cfg.crc, rs)|, |rs|)
  {
    hide ScanBytes, Frames;
    ScanVerdict(cfg.crc, cfg.maxRecord, rs, []);
    assert Frames(cfg.crc, rs) + [] == f.bytes;
  }
}
