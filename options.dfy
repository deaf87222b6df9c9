/** The scanner's command line. getopt, called with the option string
    "sHbdhp", hands the program one option character at a time ('?' for a
    character outside that string); `main` folds them into a scan type and a
    duplicate-filter mode, or stops with an exit code. */
module Options {

  datatype ScanType = Active | Passive

  datatype FilterDuplicates = Off | Software | Hardware | Both

  datatype Config = Config(scanType: ScanType, filter: FilterDuplicates)

  /** Either the scanner starts with a configuration, or the process exits. */
  datatype Launch = Run(config: Config) | Exit(code: int)

  /** The configuration before any flag is read. */
  const Default: Config := Config(Active, Software)

  /** The flags that choose a duplicate-filter mode. */
  predicate IsFilterFlag(c: char) {
    c == 's' || c == 'H' || c == 'b' || c == 'd'
  }

  /** The flags that change the configuration and let parsing go on. */
  predicate IsSettingFlag(c: char) {
    c == 'p' || IsFilterFlag(c)
  }

  function FilterOf(c: char): FilterDuplicates
    requires IsFilterFlag(c)
  {
    match c
    case 's' => Software
    case 'H' => Hardware
    case 'b' => Both
    case 'd' => Off
  }

  /** One turn of the getopt loop: a setting flag updates the configuration,
      'h' prints the usage and exits with 0, anything else exits with 1. */
  function Apply(cfg: Config, c: char): Launch {
    if c == 'p' then Run(cfg.(scanType := Passive))
    else if IsFilterFlag(c) then Run(cfg.(filter := FilterOf(c)))
    else if c == 'h' then Exit(0)
    else Exit(1)
  }

  /** The whole getopt loop started from `cfg`. */
  function Fold(cfg: Config, flags: seq<char>): Launch
    decreases |flags|
  {
    if flags == [] then Run(cfg)
    else
      match Apply(cfg, flags[0])
      case Exit(code) => Exit(code)
      case Run(next) => Fold(next, flags[1..])
  }

  function Parse(flags: seq<char>): Launch {
    Fold(Default, flags)
  }

  /** The option loop of `main`: `scanType` and `filter` are updated in place,
      and 'h' or an unknown flag returns at once. */
  method ParseOptions(flags: seq<char>) returns (outcome: Launch)
    ensures outcome == Parse(flags)
  {
    var scanType := Active;
    var filter := Software;
    var i := 0;
    while i < |flags|
      invariant 0 <= i <= |flags|
      invariant Parse(flags) == Fold(Config(scanType, filter), flags[i..])
    {
      var c := flags[i];
      if c == 'p' {
        scanType := Passive;
      } else if c == 's' {
        filter := Software;
      } else if c == 'H' {
        filter := Hardware;
      } else if c == 'b' {
        filter := Both;
      } else if c == 'd' {
        filter := Off;
      } else if c == 'h' {
        return Exit(0);
      } else {
        return Exit(1);
      }
      i := i + 1;
    }
    outcome := Run(Config(scanType, filter));
  }

  /** Parsing runs to the end exactly when every flag is a setting flag. */
  lemma {:induction false} FoldRunsIffAllSetting(cfg: Config, flags: seq<char>)
    ensures Fold(cfg, flags).Run? <==> forall k :: 0 <= k < |flags| ==> IsSettingFlag(flags[k])
    decreases |flags|
  {
    if flags != [] {
      match Apply(cfg, flags[0])
      case Exit(_) =>
      case Run(next) =>
        FoldRunsIffAllSetting(next, flags[1..]);
        assert forall k :: 1 <= k < |flags| ==> flags[k] == flags[1..][k - 1];
    }
  }

  /** The first flag that is not a setting flag decides the exit code, whatever
      follows it: 0 for 'h', 1 for anything else. */
  lemma {:induction false} FoldStopsAtFirst(cfg: Config, pre: seq<char>, c: char, post: seq<char>)
    requires forall k :: 0 <= k < |pre| ==> IsSettingFlag(pre[k])
    requires !IsSettingFlag(c)
    ensures Fold(cfg, pre + [c] + post) == Exit(if c == 'h' then 0 else 1)
    decreases |pre|
  {
    var flags := pre + [c] + post;
    if pre == [] {
      assert flags[0] == c;
    } else {
      assert flags[0] == pre[0];
      assert flags[1..] == pre[1..] + [c] + post;
      FoldStopsAtFirst(Apply(cfg, pre[0]).config, pre[1..], c, post);
    }
  }

  /** 'p' anywhere selects a passive scan; otherwise the scan type is kept. */
  lemma {:induction false} FoldScanType(cfg: Config, flags: seq<char>)
    requires Fold(cfg, flags).Run?
    ensures Fold(cfg, flags).config.scanType == if 'p' in flags then Passive else cfg.scanType
    decreases |flags|
  {
    if flags != [] {
      var next := Apply(cfg, flags[0]).config;
      FoldScanType(next, flags[1..]);
      assert 'p' in flags <==> flags[0] == 'p' || 'p' in flags[1..] by {
        assert flags == [flags[0]] + flags[1..];
      }
    }
  }

  /** Among 's', 'H', 'b' and 'd', the last one given wins. */
  lemma {:induction false} FoldLastFilterWins(cfg: Config, flags: seq<char>, k: int)
    requires Fold(cfg, flags).Run?
    requires 0 <= k < |flags| && IsFilterFlag(flags[k])
    requires forall j :: k < j < |flags| ==> !IsFilterFlag(flags[j])
    ensures Fold(cfg, flags).config.filter == FilterOf(flags[k])
    decreases |flags|
  {
    var next := Apply(cfg, flags[0]).config;
    if k == 0 {
      FoldKeepsFilter(next, flags[1..]);
    } else {
      FoldLastFilterWins(next, flags[1..], k - 1);
    }
  }

  /** Without a filter flag the filter mode stays as it was. */
  lemma {:induction false} FoldKeepsFilter(cfg: Config, flags: seq<char>)
    requires Fold(cfg, flags).Run?
    requires forall j :: 0 <= j < |flags| ==> !IsFilterFlag(flags[j])
    ensures Fold(cfg, flags).config.filter == cfg.filter
    decreases |flags|
  {
    if flags != [] {
      FoldKeepsFilter(Apply(cfg, flags[0]).config, flags[1..]);
    }
  }

  /** What the command line yields, stated for the flags as a whole: parsing
      starts from an active scan with software filtering, 'p' makes it passive,
      and a run without filter flags keeps software filtering. */
  lemma ParseFromDefault(flags: seq<char>)
    requires Parse(flags).Run?
    ensures Parse(flags).config.scanType == Passive <==> 'p' in flags
    ensures (forall j :: 0 <= j < |flags| ==> !IsFilterFlag(flags[j])) ==> Parse(flags).config.filter == Software
  {
    FoldScanType(Default, flags);
    if forall j :: 0 <= j < |flags| ==> !IsFilterFlag(flags[j]) {
      FoldKeepsFilter(Default, flags);
    }
  }
}
