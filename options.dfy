/**
 * The option processing of triple.c's main: defaults are loaded into one
 * configuration record, then every option returned by getopt_long is applied
 * in order, each overwriting one field, and processing may stop early with an
 * exit status. The scanning of argv and the text-to-number conversions are
 * library behaviour: an option reaches the model as its character together
 * with the two readings atof/atoi of its argument.
 */
module TripleOptions {
  import opened Wrappers
  import opened Fewbody

  /** The two parsed readings of optarg: atof(optarg) and atoi/atol(optarg). */
  datatype Arg = Arg(atof: real, atoi: int)

  /** One value returned by getopt_long, with its argument. */
  datatype Opt = Opt(name: char, arg: Arg)

  /**
   * The option variables of main and the fields of fb_input_t they set;
   * `debug` stands for the global fb_debug and `inputSeed` for input_seed.
   */
  datatype Config = Config(
    m000: real, m001: real, m01: real, r000: real,
    a00: real, a0: real, e00: real, e0: real,
    periIn: real, periOut: real, inc: real,
    ks: int, tstop: real, Dflag: int, dt: real, tcpustop: real,
    absacc: real, relacc: real, ncount: int, outfreq: int,
    tidaltol: real, fexp: real, inputSeed: int, speedtol: real,
    PN1: int, PN2: int, PN25: int, PN3: int, PN35: int,
    debug: int)

  /** Where processing stands after some options: going on, or returned. */
  datatype Progress = Continue(config: Config) | Stop(status: int)

  /** What main does once the options are read. */
  datatype Outcome = Ok(config: Config) | Exit(status: int)

  /** input_seed is an unsigned long: atol's result is converted modulo 2^64. */
  const ULongModulus: int := 0x1_0000_0000_0000_0000

  /**
   * The defaults: every field from the FB_* table of the driver's header,
   * except Dflag, which main sets to 0 itself.
   */
  function LoadDefaults(table: Config): (c: Config)
    ensures c.Dflag == 0
    ensures c.(Dflag := table.Dflag) == table
  {
    table.(Dflag := 0)
  }

  /** An angle option's stored value: degrees converted to radians when positive. */
  function AngleValue(x: real): real
  {
    if x > 0.0 then x * ConstPi / 180.0 else x
  }

  /** The range test that main applies to the stored (converted) angle. */
  predicate AngleInRange(v: real)
  {
    !(v > 360.0 || (v < 0.0 && v != -1.0))
  }

  /** One pass of the switch in main's getopt_long loop. */
  function Step(c: Config, o: Opt): Progress
  {
    var a := o.arg;
    match o.name
    case 'm' => Continue(c.(m000 := a.atof * ConstMsun))
    case 'n' => Continue(c.(m001 := a.atof * ConstMsun))
    case 'o' => Continue(c.(m01 := a.atof * ConstMsun))
    case 'r' => Continue(c.(r000 := a.atof))
    case 'a' => Continue(c.(a00 := a.atof * ConstAu))
    case 'q' => Continue(c.(a0 := a.atof * ConstAu))
    case 'e' => if a.atof >= 1.0 then Stop(1) else Continue(c.(e00 := a.atof))
    case 'F' => if a.atof >= 1.0 then Stop(1) else Continue(c.(e0 := a.atof))
    case 'p' =>
      var v := AngleValue(a.atof);
      if !AngleInRange(v) then Stop(1) else Continue(c.(periIn := v))
    case 'B' =>
      var v := AngleValue(a.atof);
      if !AngleInRange(v) then Stop(1) else Continue(c.(periOut := v))
    case 'I' =>
      var v := AngleValue(a.atof);
      if !AngleInRange(v) then Stop(1) else Continue(c.(inc := v))
    case 't' => Continue(c.(tstop := a.atof))
    case 'D' => Continue(c.(Dflag := 1, dt := a.atof))
    case 'c' => Continue(c.(tcpustop := a.atof))
    case 'A' => Continue(c.(absacc := a.atof))
    case 'R' => Continue(c.(relacc := a.atof))
    case 'N' => Continue(c.(ncount := a.atoi))
    case 'O' => Continue(c.(outfreq := a.atoi))
    case 'z' => Continue(c.(tidaltol := a.atof))
    case 'x' => Continue(c.(fexp := a.atof))
    case 'y' => Continue(c.(speedtol := a.atof))
    case 'P' => Continue(c.(PN1 := a.atoi))
    case 'Q' => Continue(c.(PN2 := a.atoi))
    case 'S' => Continue(c.(PN25 := a.atoi))
    case 'T' => Continue(c.(PN3 := a.atoi))
    case 'U' => Continue(c.(PN35 := a.atoi))
    case 'k' => Continue(c.(ks := a.atoi))
    case 's' => Continue(c.(inputSeed := a.atoi % ULongModulus))
    case 'd' => Continue(c.(debug := 1))
    case 'V' => Stop(0)
    case 'h' => Stop(0)
    case _ => Continue(c)
  }

  /** The options in order until one stops processing. */
  function Run(c: Config, opts: seq<Opt>): Progress
    decreases |opts|
  {
    if opts == [] then Continue(c)
    else
      match Step(c, opts[0])
      case Stop(s) => Stop(s)
      case Continue(c1) => Run(c1, opts[1..])
  }

  /**
   * Everything main does with its command line before the run starts:
   * defaults, the option loop, and the check for leftover positional
   * arguments (`positional` of them).
   */
  function CommandLine(table: Config, opts: seq<Opt>, positional: nat): Outcome
  {
    match Run(LoadDefaults(table), opts)
    case Stop(s) => Exit(s)
    case Continue(c) => if positional > 0 then Exit(1) else Ok(c)
  }

  /** The option loop of main, applying one option per iteration. */
  method ProcessOptions(table: Config, opts: seq<Opt>, positional: nat) returns (r: Outcome)
    ensures r == CommandLine(table, opts, positional)
  {
    var c := LoadDefaults(table);
    var i := 0;
    while i < |opts|
      invariant 0 <= i <= |opts|
      invariant Run(c, opts[i..]) == Run(LoadDefaults(table), opts)
    {
      assert opts[i..][1..] == opts[i + 1..];
      match Step(c, opts[i])
      case Stop(s) =>
        return Exit(s);
      case Continue(c1) =>
        c := c1;
      i := i + 1;
    }
    if positional > 0 {
      return Exit(1);
    }
    return Ok(c);
  }

  // ---------------------------------------------------------------------
  // Which options stop processing, independently of the configuration

  /** -V and -h print and return 0. */
  predicate Ends(o: Opt)
  {
    o.name == 'V' || o.name == 'h'
  }

  /** Options whose value fails validation and make main return 1. */
  predicate Rejects(o: Opt)
  {
    ((o.name == 'e' || o.name == 'F') && o.arg.atof >= 1.0)
    || ((o.name == 'p' || o.name == 'B' || o.name == 'I') && !AngleInRange(AngleValue(o.arg.atof)))
  }

  predicate Halts(o: Opt)
  {
    Ends(o) || Rejects(o)
  }

  function HaltStatus(o: Opt): int
  {
    if Ends(o) then 0 else 1
  }

  /** A single option stops processing exactly when Halts says so, with HaltStatus. */
  lemma StepHalts(c: Config, o: Opt)
    ensures Step(c, o).Stop? <==> Halts(o)
    ensures Step(c, o).Stop? ==> Step(c, o).status == HaltStatus(o)
  {
  }

  /** The index of the first option that stops processing, if any. */
  function FirstHalt(opts: seq<Opt>): (r: Option<nat>)
    ensures r.Some? ==> r.value < |opts| && Halts(opts[r.value])
    ensures r.Some? ==> forall k :: 0 <= k < r.value ==> !Halts(opts[k])
    ensures r.None? ==> forall k :: 0 <= k < |opts| ==> !Halts(opts[k])
    decreases |opts|
  {
    if opts == [] then None
    else if Halts(opts[0]) then Some(0)
    else
      match FirstHalt(opts[1..])
      case None => None
      case Some(k) => Some(k + 1)
  }

  /** Processing stops exactly at the first halting option, with its status. */
  lemma {:induction false} RunHalts(c: Config, opts: seq<Opt>)
    ensures Run(c, opts).Stop? <==> FirstHalt(opts).Some?
    ensures Run(c, opts).Stop? ==> Run(c, opts).status == HaltStatus(opts[FirstHalt(opts).value])
    decreases |opts|
  {
    if opts != [] {
      StepHalts(c, opts[0]);
      if !Halts(opts[0]) {
        RunHalts(Step(c, opts[0]).config, opts[1..]);
      }
    }
  }

  /** Running p then q is running p, and then q from where p left off. */
  lemma {:induction false} RunAppend(c: Config, p: seq<Opt>, q: seq<Opt>)
    ensures Run(c, p + q) == match Run(c, p)
                             case Stop(s) => Stop(s)
                             case Continue(c1) => Run(c1, q)
    decreases |p|
  {
    if p == [] {
      assert p + q == q;
    } else {
      assert (p + q)[0] == p[0];
      assert (p + q)[1..] == p[1..] + q;
      if Step(c, p[0]).Continue? {
        RunAppend(Step(c, p[0]).config, p[1..], q);
      }
    }
  }

  /** After a halting option no later option has any effect. */
  lemma StopCutsOff(c: Config, p: seq<Opt>, o: Opt, q: seq<Opt>)
    requires Halts(o)
    ensures Run(c, p + [o] + q) == Run(c, p + [o])
    ensures Run(c, p).Continue? ==> Run(c, p + [o]) == Stop(HaltStatus(o))
  {
    RunAppend(c, p + [o], q);
    RunAppend(c, p, [o]);
    RunHalts(c, p + [o]);
    StepHalts(if Run(c, p).Continue? then Run(c, p).config else c, o);
  }

  /** The three outcomes of main's command line, each characterised. */
  lemma CommandLineOutcome(table: Config, opts: seq<Opt>, positional: nat)
    ensures CommandLine(table, opts, positional).Ok?
            <==> FirstHalt(opts).None? && positional == 0
    ensures CommandLine(table, opts, positional) == Exit(0)
            <==> FirstHalt(opts).Some? && Ends(opts[FirstHalt(opts).value])
    ensures CommandLine(table, opts, positional) == Exit(1)
            <==> (FirstHalt(opts).Some? && Rejects(opts[FirstHalt(opts).value]))
                 || (FirstHalt(opts).None? && positional > 0)
  {
    RunHalts(LoadDefaults(table), opts);
  }

  /** -e / -F: a value >= 1 returns 1; a smaller one is stored as it is. */
  lemma EccentricityOption(c: Config, o: Opt)
    requires o.name == 'e' || o.name == 'F'
    ensures Step(c, o) == Stop(1) <==> o.arg.atof >= 1.0
    ensures o.arg.atof < 1.0 ==>
              Step(c, o) == Continue(if o.name == 'e' then c.(e00 := o.arg.atof) else c.(e0 := o.arg.atof))
  {
  }

  /**
   * -p / -B / -I: the value is accepted exactly when it is 0, -1, or a
   * positive number of degrees whose radian value is at most 360.
   */
  lemma AngleOption(x: real)
    ensures AngleInRange(AngleValue(x))
            <==> x == 0.0 || x == -1.0 || (x > 0.0 && x * ConstPi <= 64800.0)
    ensures AngleInRange(AngleValue(x)) ==> AngleValue(x) == -1.0 || 0.0 <= AngleValue(x) <= 360.0
  {
  }

  /** An option character the switch does not handle changes nothing. */
  lemma UnhandledIgnored(c: Config, o: Opt)
    requires !IsValueOption(o.name) && o.name != 'V' && o.name != 'h'
    ensures Step(c, o) == Continue(c)
  {
  }

  // ---------------------------------------------------------------------
  // Each value-carrying option owns one slot of the configuration

  datatype Val = RealVal(r: real) | IntVal(i: int) | DtVal(flag: int, dt: real) | NoVal

  predicate IsValueOption(ch: char)
  {
    match ch
    case 'm' | 'n' | 'o' | 'r' | 'a' | 'q' | 'e' | 'F' | 'p' | 'B' | 'I' | 't' | 'D' | 'c' => true
    case 'A' | 'R' | 'N' | 'O' | 'z' | 'x' | 'y' | 'P' | 'Q' | 'S' | 'T' | 'U' | 'k' | 's' | 'd' => true
    case _ => false
  }

  /** The part of the configuration that option `ch` writes. */
  function Slot(c: Config, ch: char): Val
  {
    match ch
    case 'm' => RealVal(c.m000)
    case 'n' => RealVal(c.m001)
    case 'o' => RealVal(c.m01)
    case 'r' => RealVal(c.r000)
    case 'a' => RealVal(c.a00)
    case 'q' => RealVal(c.a0)
    case 'e' => RealVal(c.e00)
    case 'F' => RealVal(c.e0)
    case 'p' => RealVal(c.periIn)
    case 'B' => RealVal(c.periOut)
    case 'I' => RealVal(c.inc)
    case 't' => RealVal(c.tstop)
    case 'D' => DtVal(c.Dflag, c.dt)
    case 'c' => RealVal(c.tcpustop)
    case 'A' => RealVal(c.absacc)
    case 'R' => RealVal(c.relacc)
    case 'N' => IntVal(c.ncount)
    case 'O' => IntVal(c.outfreq)
    case 'z' => RealVal(c.tidaltol)
    case 'x' => RealVal(c.fexp)
    case 'y' => RealVal(c.speedtol)
    case 'P' => IntVal(c.PN1)
    case 'Q' => IntVal(c.PN2)
    case 'S' => IntVal(c.PN25)
    case 'T' => IntVal(c.PN3)
    case 'U' => IntVal(c.PN35)
    case 'k' => IntVal(c.ks)
    case 's' => IntVal(c.inputSeed)
    case 'd' => IntVal(c.debug)
    case _ => NoVal
  }

  /** What option `ch` with argument `a` stores in its slot when accepted. */
  function Written(ch: char, a: Arg): Val
  {
    match ch
    case 'm' => RealVal(a.atof * ConstMsun)
    case 'n' => RealVal(a.atof * ConstMsun)
    case 'o' => RealVal(a.atof * ConstMsun)
    case 'a' => RealVal(a.atof * ConstAu)
    case 'q' => RealVal(a.atof * ConstAu)
    case 'p' => RealVal(AngleValue(a.atof))
    case 'B' => RealVal(AngleValue(a.atof))
    case 'I' => RealVal(AngleValue(a.atof))
    case 'D' => DtVal(1, a.atof)
    case 'N' => IntVal(a.atoi)
    case 'O' => IntVal(a.atoi)
    case 'P' => IntVal(a.atoi)
    case 'Q' => IntVal(a.atoi)
    case 'S' => IntVal(a.atoi)
    case 'T' => IntVal(a.atoi)
    case 'U' => IntVal(a.atoi)
    case 'k' => IntVal(a.atoi)
    case 's' => IntVal(a.atoi % ULongModulus)
    case 'd' => IntVal(1)
    case 'r' | 'e' | 'F' | 't' | 'c' | 'A' | 'R' | 'z' | 'x' | 'y' => RealVal(a.atof)
    case _ => NoVal
  }

  /** An accepted option writes its own slot and leaves every other slot alone. */
  lemma StepFrame(c: Config, o: Opt)
    requires Step(c, o).Continue?
    ensures IsValueOption(o.name) ==> Slot(Step(c, o).config, o.name) == Written(o.name, o.arg)
    ensures forall ch :: ch != o.name ==> Slot(Step(c, o).config, ch) == Slot(c, ch)
  {
    if IsValueOption(o.name) {
      StepWritesOwnSlot(c, o);
    }
    forall ch | ch != o.name
      ensures Slot(Step(c, o).config, ch) == Slot(c, ch)
    {
      StepKeepsOtherSlot(c, o, ch);
    }
  }

  lemma StepWritesOwnSlot(c: Config, o: Opt)
    requires Step(c, o).Continue? && IsValueOption(o.name)
    ensures Slot(Step(c, o).config, o.name) == Written(o.name, o.arg)
  {
  }

  lemma StepKeepsOtherSlot(c: Config, o: Opt, ch: char)
    requires Step(c, o).Continue? && ch != o.name
    ensures Slot(Step(c, o).config, ch) == Slot(c, ch)
  {
  }

  /** A slot that no option in the sequence writes keeps its value. */
  lemma {:induction false} Untouched(c: Config, opts: seq<Opt>, ch: char)
    requires Run(c, opts).Continue?
    requires forall k :: 0 <= k < |opts| ==> opts[k].name != ch
    ensures Slot(Run(c, opts).config, ch) == Slot(c, ch)
    decreases |opts|
  {
    if opts != [] {
      StepFrame(c, opts[0]);
      Untouched(Step(c, opts[0]).config, opts[1..], ch);
    }
  }

  /** The last occurrence of a value-carrying option decides its slot. */
  lemma {:induction false} LastWins(c: Config, opts: seq<Opt>, k: nat)
    requires Run(c, opts).Continue?
    requires k < |opts| && IsValueOption(opts[k].name)
    requires forall j :: k < j < |opts| ==> opts[j].name != opts[k].name
    ensures Slot(Run(c, opts).config, opts[k].name) == Written(opts[k].name, opts[k].arg)
    decreases |opts|
  {
    var c1 := Step(c, opts[0]).config;
    if k == 0 {
      StepFrame(c, opts[0]);
      Untouched(c1, opts[1..], opts[0].name);
    } else {
      LastWins(c1, opts[1..], k - 1);
    }
  }

  /** Dflag ends up 1 exactly when some -D was given, and otherwise keeps its value. */
  lemma {:induction false} DflagAfterRun(c: Config, opts: seq<Opt>)
    requires Run(c, opts).Continue?
    ensures Run(c, opts).config.Dflag
            == if exists k :: 0 <= k < |opts| && opts[k].name == 'D' then 1 else c.Dflag
    decreases |opts|
  {
    if opts != [] {
      var c1 := Step(c, opts[0]).config;
      StepFrame(c, opts[0]);
      assert Slot(c1, 'D').flag == c1.Dflag && Slot(c, 'D').flag == c.Dflag;
      DflagAfterRun(c1, opts[1..]);
      if exists k :: 0 <= k < |opts[1..]| && opts[1..][k].name == 'D' {
        var k :| 0 <= k < |opts[1..]| && opts[1..][k].name == 'D';
        assert opts[k + 1].name == 'D';
      }
      if exists k :: 0 <= k < |opts| && opts[k].name == 'D' {
        var k :| 0 <= k < |opts| && opts[k].name == 'D';
        if k > 0 {
          assert opts[1..][k - 1].name == 'D';
        }
      }
    }
  }

  /** With the defaults loaded, Dflag is 1 if -D was given and 0 otherwise. */
  lemma DflagFromCommandLine(table: Config, opts: seq<Opt>, positional: nat)
    requires CommandLine(table, opts, positional).Ok?
    ensures CommandLine(table, opts, positional).config.Dflag
            == if exists k :: 0 <= k < |opts| && opts[k].name == 'D' then 1 else 0
  {
    DflagAfterRun(LoadDefaults(table), opts);
  }

  // ---------------------------------------------------------------------
  // The long-option table

  /** long_opts of main: each long name and the character getopt_long returns for it. */
  const LongOptions: seq<(string, char)> := [
    ("m000", 'm'), ("m001", 'n'), ("m01", 'o'), ("r000", 'r'), ("a00", 'a'),
    ("a0", 'Q'), ("e00", 'e'), ("e0", 'F'), ("peri_in", 'p'), ("peri_out", 'B'),
    ("inc", 'I'), ("tstop", 't'), ("dt", 'D'), ("tcpustop", 'c'), ("absacc", 'A'),
    ("relacc", 'R'), ("ncount", 'N'), ("outputfreq", 'O'), ("tidaltol", 'z'), ("fexp", 'x'),
    ("ks", 'k'), ("seed", 's'), ("debug", 'd'), ("version", 'V'), ("help", 'h')]

  /** The table with `--a0` bound to 'q', the short option whose usage line names it. */
  const IntendedLongOptions: seq<(string, char)> := LongOptions[5 := ("a0", 'q')]

  /** The character of the first entry whose name matches exactly. */
  function LongOptionChar(table: seq<(string, char)>, name: string): (r: Option<char>)
    ensures r.Some? ==> exists k :: 0 <= k < |table| && table[k] == (name, r.value)
    ensures r.None? ==> forall k :: 0 <= k < |table| ==> table[k].0 != name
    decreases |table|
  {
    if table == [] then None
    else if table[0].0 == name then Some(table[0].1)
    else
      var r := LongOptionChar(table[1..], name);
      assert r.Some? ==> exists k :: 0 <= k < |table[1..]| && table[1..][k] == (name, r.value);
      assert r.Some? ==> exists k :: 0 <= k < |table| && table[k] == (name, r.value) by {
        if r.Some? {
          var k :| 0 <= k < |table[1..]| && table[1..][k] == (name, r.value);
          assert table[k + 1] == (name, r.value);
        }
      }
      r
  }

  lemma {:induction false} LongOptionCharAt(table: seq<(string, char)>, k: nat, name: string)
    requires k < |table| && table[k].0 == name
    requires forall j :: 0 <= j < k ==> table[j].0 != name
    ensures LongOptionChar(table, name) == Some(table[k].1)
    decreases k
  {
    if k > 0 {
      LongOptionCharAt(table[1..], k - 1, name);
    }
  }

  /** None of the five entries before `a0` in the table is named "a0". */
  lemma A0IsSixthEntry(table: seq<(string, char)>)
    requires |table| > 5 && table[5].0 == "a0"
    requires table[0].0 == "m000" && table[1].0 == "m001" && table[2].0 == "m01"
    requires table[3].0 == "r000" && table[4].0 == "a00"
    ensures LongOptionChar(table, "a0") == Some(table[5].1)
  {
    LongOptionCharAt(table, 5, "a0");
  }

  /** In long_opts the name "a0" is bound to 'Q'. */
  lemma LongA0BindsQ()
    ensures LongOptionChar(LongOptions, "a0") == Some('Q')
  {
    A0IsSixthEntry(LongOptions);
  }

  /** As written: the 'Q' that `--a0 X` yields sets PN2 to atoi(X) and leaves a0 alone. */
  lemma LongA0SetsPN2(c: Config, a: Arg)
    ensures Step(c, Opt('Q', a)) == Continue(c.(PN2 := a.atoi))
    ensures Step(c, Opt('Q', a)).config.a0 == c.a0
  {
  }

  /** With the intended binding, the name "a0" yields 'q'. */
  lemma IntendedLongA0BindsLowerQ()
    ensures LongOptionChar(IntendedLongOptions, "a0") == Some('q')
  {
    A0IsSixthEntry(IntendedLongOptions);
  }

  /** The 'q' that the intended `--a0 X` yields sets the outer semimajor axis to X AU. */
  lemma IntendedLongA0SetsA0(c: Config, a: Arg)
    ensures Step(c, Opt('q', a)) == Continue(c.(a0 := a.atof * ConstAu))
  {
  }

  // ---------------------------------------------------------------------
  // The angle check, as written and as evidently intended

  /** As written: 400 degrees passes, though its radian value exceeds a full turn. */
  lemma RadianCheckAdmits400Degrees()
    ensures AngleInRange(AngleValue(400.0))
    ensures AngleValue(400.0) > 2.0 * ConstPi
  {
  }

  /** The intended test: the argument, in degrees, is -1 or lies in [0, 360]. */
  predicate DegreesInRange(x: real)
  {
    x == -1.0 || 0.0 <= x <= 360.0
  }

  /** Under the intended test the stored angle is -1 or within one full turn. */
  lemma DegreeCheckBoundsRadians(x: real)
    requires DegreesInRange(x)
    ensures AngleValue(x) == -1.0 || 0.0 <= AngleValue(x) <= 2.0 * ConstPi
    ensures !DegreesInRange(400.0)
  {
  }
}
