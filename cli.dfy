/** The command dispatcher of imgswift: from the argument vector to one planned
    outcome, and the run that outcome produces against a file system that can
    or cannot read and write each path. */
module Cli {
  import opened Numeric
  import opened Formats

  datatype Command = Resize | Dpi | Convert | Compress

  /** The subcommand word on the command line. */
  function Name(c: Command): string {
    match c
    case Resize => "resize"
    case Dpi => "dpi"
    case Convert => "convert"
    case Compress => "compress"
  }

  /** The subcommand `args[1]` selects: an exact, case-sensitive match. */
  function CommandNamed(word: string): (c: Option<Command>)
    ensures c.Some? ==> Name(c.value) == word
    ensures c.None? ==> forall d: Command :: Name(d) != word
  {
    if word == "resize" then Some(Resize)
    else if word == "dpi" then Some(Dpi)
    else if word == "convert" then Some(Convert)
    else if word == "compress" then Some(Compress)
    else None
  }

  /** The argument counts below which a handler prints its usage line instead
      of running: `resize` and the three other handlers. */
  datatype Guards = Guards(resize: nat, others: nat)

  /** The counts the handlers test: `args.len() < 5` and `args.len() < 4`. */
  const AS_WRITTEN := Guards(5, 4)

  /** The counts that cover the highest index each handler reads. */
  const INTENDED := Guards(6, 5)

  function MinArgs(c: Command, g: Guards): nat {
    if c == Resize then g.resize else g.others
  }

  /** The work handed to the image library, as opaque records. */
  datatype Effect =
    | Open(path: string)                                   // image::open
    | ResizeTo(width: nat, height: nat)                    // DynamicImage::resize with Lanczos3
    | SaveWithFormat(path: string, format: ImageFormat)    // save_with_format
    | SaveByPath(path: string)                             // save: format chosen by the library

  predicate Saves(e: Effect) {
    e.SaveWithFormat? || e.SaveByPath?
  }

  /** The confirmation line a handler prints once its effects are done. */
  datatype Message =
    | Resized(width: nat, height: nat, output: string)
    | DpiSet(dpi: nat, output: string)
    | Converted(format: string, output: string)
    | SupportedFormats
    | Compressed(quality: Quality, output: string)
    | JpegOnly(output: string)

  datatype Plan = Plan(effects: seq<Effect>, message: Message)

  /** A plan opens `args[2]` first and nothing else, and saves to `args[3]` only. */
  predicate OpensInputSavesOutput(args: seq<string>, p: Plan) {
    && 5 <= |args| && p.effects != [] && p.effects[0] == Open(args[2])
    && (forall e | e in p.effects && Saves(e) :: e.path == args[3])
    && (forall e | e in p.effects[1..] :: !e.Open?)
  }

  /** A plan that opens `args[2]` and then makes one save, to `args[3]`. */
  lemma OpenThenSave(args: seq<string>, p: Plan)
    requires 5 <= |args| && |p.effects| == 2 && p.effects[0] == Open(args[2])
    requires Saves(p.effects[1]) && p.effects[1].path == args[3]
    ensures OpensInputSavesOutput(args, p)
  {
    assert p.effects[1..] == [p.effects[1]];
  }

  /** What an invocation comes to before any file is touched. */
  datatype Outcome =
    | Usage                                  // print_usage, then success
    | CommandUsage(command: Command)         // one handler's usage line, then success
    | IndexOutOfRange(index: nat, len: nat)  // `args[index]` panics
    | BadNumber(index: nat, error: ParseError) // `args[index].parse()?` returns the error
    | Planned(plan: Plan)

  /** A handler part-way through: it goes on with a value, or it has returned.
      `:-` on a `Step` is the model of both `?` and an early `return`. */
  datatype Step<T> = Next(value: T) | Halt(outcome: Outcome) {
    predicate IsFailure() {
      Halt?
    }

    function PropagateFailure<U>(): Step<U>
      requires Halt?
    {
      Halt(outcome)
    }

    function Extract(): T
      requires Next?
    {
      value
    }
  }

  /** `args[i]`, with Rust's bounds check. */
  function At(args: seq<string>, i: nat): Step<string> {
    if i < |args| then Next(args[i]) else Halt(IndexOutOfRange(i, |args|))
  }

  /** `args[i].parse()?` into an unsigned type whose largest value is `max`. */
  function NumberAt(args: seq<string>, i: nat, max: nat): (r: Step<nat>)
    ensures r.Next? <==> i < |args| && ParseUnsigned(args[i], max).Ok?
    ensures r.Next? ==> r.value == ParseUnsigned(args[i], max).value && r.value <= max
    ensures i >= |args| ==> r == Halt(IndexOutOfRange(i, |args|))
    ensures i < |args| && ParseUnsigned(args[i], max).Err? ==> r == Halt(BadNumber(i, ParseUnsigned(args[i], max).error))
  {
    var s :- At(args, i);
    match ParseUnsigned(s, max)
    case Ok(v) => Next(v)
    case Err(e) => Halt(BadNumber(i, e))
  }

  /** The ways a handler can return early once its own guard has passed: an
      index past the end, or a number that does not parse. */
  predicate EarlyExit(args: seq<string>, o: Outcome, max: nat) {
    || (o.IndexOutOfRange? && o.len == |args| <= o.index)
    || (o.BadNumber? && o.index < |args| && ParseUnsigned(args[o.index], max).Err?
        && o.error == ParseUnsigned(args[o.index], max).error)
  }

  /** `resize_image`. */
  function ResizeImage(args: seq<string>, g: Guards): (r: Step<Plan>)
    ensures |args| < g.resize ==> r == Halt(CommandUsage(Resize))
    ensures r.Next? <==>
              && g.resize <= |args| && 6 <= |args|
              && ParseUnsigned(args[4], U32_MAX).Ok? && ParseUnsigned(args[5], U32_MAX).Ok?
    ensures r.Next? ==>
              var w, h := ParseUnsigned(args[4], U32_MAX).value, ParseUnsigned(args[5], U32_MAX).value;
              r.value == Plan([Open(args[2]), ResizeTo(w, h), SaveByPath(args[3])], Resized(w, h, args[3]))
    ensures g.resize <= |args| && r.Halt? ==> EarlyExit(args, r.outcome, U32_MAX)
    ensures r.Next? ==> OpensInputSavesOutput(args, r.value)
  {
    if |args| < g.resize then Halt(CommandUsage(Resize)) else
    var input :- At(args, 2);
    var output :- At(args, 3);
    var width :- NumberAt(args, 4, U32_MAX);
    var height :- NumberAt(args, 5, U32_MAX);
    Next(Plan([Open(input), ResizeTo(width, height), SaveByPath(output)], Resized(width, height, output)))
  }

  /** `change_dpi`: the dpi value is parsed and reported but never saved; the
      saved format is inferred from the output path. */
  function ChangeDpi(args: seq<string>, g: Guards): (r: Step<Plan>)
    ensures |args| < g.others ==> r == Halt(CommandUsage(Dpi))
    ensures r.Next? <==> g.others <= |args| && 5 <= |args| && ParseUnsigned(args[4], U32_MAX).Ok?
    ensures r.Next? ==>
              r.value == Plan([Open(args[2]), SaveWithFormat(args[3], GetFormat(args[3]))],
                              DpiSet(ParseUnsigned(args[4], U32_MAX).value, args[3]))
    ensures g.others <= |args| && r.Halt? ==> EarlyExit(args, r.outcome, U32_MAX)
    ensures r.Next? ==> OpensInputSavesOutput(args, r.value)
  {
    if |args| < g.others then Halt(CommandUsage(Dpi)) else
    var input :- At(args, 2);
    var output :- At(args, 3);
    var dpi :- NumberAt(args, 4, U32_MAX);
    var plan := Plan([Open(input), SaveWithFormat(output, GetFormat(output))], DpiSet(dpi, output));
    OpenThenSave(args, plan);
    Next(plan)
  }

  /** `convert_format`: the lowercased format name picks the saved format; an
      unsupported name is reported after the input has been opened. */
  function ConvertImage(args: seq<string>, g: Guards): (r: Step<Plan>)
    ensures |args| < g.others ==> r == Halt(CommandUsage(Convert))
    ensures r.Next? <==> g.others <= |args| && 5 <= |args|
    ensures r.Next? && ConvertFormat(args[4]).Some? ==>
              r.value == Plan([Open(args[2]), SaveWithFormat(args[3], ConvertFormat(args[4]).value)],
                              Converted(AsciiLower(args[4]), args[3]))
    ensures r.Next? && ConvertFormat(args[4]).None? ==> r.value == Plan([Open(args[2])], SupportedFormats)
    ensures g.others <= |args| && r.Halt? ==> r.outcome.IndexOutOfRange? && r.outcome.len == |args| <= r.outcome.index
    ensures r.Next? ==> OpensInputSavesOutput(args, r.value)
  {
    if |args| < g.others then Halt(CommandUsage(Convert)) else
    var input :- At(args, 2);
    var output :- At(args, 3);
    var requested :- At(args, 4);
    match ConvertFormat(requested)
    case Some(format) =>
      Next(Plan([Open(input), SaveWithFormat(output, format)], Converted(AsciiLower(requested), output)))
    case None => Next(Plan([Open(input)], SupportedFormats))
  }

  /** `compress_image`: the branch follows the output path's inferred format;
      only the JPEG branch uses the quality, which is any `u8`. */
  function CompressImage(args: seq<string>, g: Guards): (r: Step<Plan>)
    ensures |args| < g.others ==> r == Halt(CommandUsage(Compress))
    ensures r.Next? <==> g.others <= |args| && 5 <= |args| && ParseUnsigned(args[4], U8_MAX).Ok?
    ensures r.Next? && GetFormat(args[3]).Jpeg? ==>
              var q := ParseUnsigned(args[4], U8_MAX).value;
              r.value == Plan([Open(args[2]), SaveWithFormat(args[3], Jpeg(q))], Compressed(q, args[3]))
    ensures r.Next? && !GetFormat(args[3]).Jpeg? ==>
              r.value == Plan([Open(args[2]), SaveByPath(args[3])], JpegOnly(args[3]))
    ensures g.others <= |args| && r.Halt? ==> EarlyExit(args, r.outcome, U8_MAX)
    ensures r.Next? ==> OpensInputSavesOutput(args, r.value)
  {
    if |args| < g.others then Halt(CommandUsage(Compress)) else
    var input :- At(args, 2);
    var output :- At(args, 3);
    var quality :- NumberAt(args, 4, U8_MAX);
    var plan := CompressPlan(input, output, quality);
    OpenThenSave(args, plan);
    Next(plan)
  }

  /** The branch of `compress_image` on the output path's inferred format. */
  function CompressPlan(input: string, output: string, quality: Quality): (p: Plan)
    ensures |p.effects| == 2 && p.effects[0] == Open(input) && Saves(p.effects[1]) && p.effects[1].path == output
  {
    if GetFormat(output).Jpeg? then
      Plan([Open(input), SaveWithFormat(output, Jpeg(quality))], Compressed(quality, output))
    else
      Plan([Open(input), SaveByPath(output)], JpegOnly(output))
  }

  function Handle(c: Command, args: seq<string>, g: Guards): Step<Plan> {
    match c
    case Resize => ResizeImage(args, g)
    case Dpi => ChangeDpi(args, g)
    case Convert => ConvertImage(args, g)
    case Compress => CompressImage(args, g)
  }

  /** `main`, with the handlers' guards as a parameter. The fall-through arm
      prints the usage text and succeeds. */
  function Dispatch(args: seq<string>, g: Guards): (r: Outcome)
    ensures r == Usage <==> |args| < 2 || CommandNamed(args[1]).None?
    ensures r.CommandUsage? ==> 2 <= |args| < MinArgs(r.command, g) && args[1] == Name(r.command)
    ensures r.IndexOutOfRange? ==> r.len == |args| <= r.index
    ensures r.BadNumber? ==> 4 <= r.index <= 5 && r.index < |args|
    ensures r.Planned? ==> OpensInputSavesOutput(args, r.plan)
  {
    if |args| < 2 then Usage
    else
      match CommandNamed(args[1])
      case None => Usage
      case Some(c) =>
        match Handle(c, args, g)
        case Next(plan) => Planned(plan)
        case Halt(o) => o
  }

  // ---------------------------------------------------------------------------
  // Running an outcome

  datatype Status = Success | Failure | Panic

  /** What reaches standard output. */
  datatype Output = UsageText | UsageLine(command: Command) | Printed(message: Message) | Silent

  datatype Run = Run(status: Status, performed: seq<Effect>, output: Output)

  /** Whether the library call behind an effect succeeds, given the paths that
      open as images and the paths that can be written. */
  predicate Succeeds(e: Effect, readable: set<string>, writable: set<string>) {
    match e
    case Open(p) => p in readable
    case ResizeTo(_, _) => true
    case SaveWithFormat(p, _) => p in writable
    case SaveByPath(p) => p in writable
  }

  /** How many leading effects succeed before the first that fails. */
  function Completed(effects: seq<Effect>, readable: set<string>, writable: set<string>): (k: nat)
    ensures k <= |effects|
    ensures forall i | 0 <= i < k :: Succeeds(effects[i], readable, writable)
    ensures k < |effects| ==> !Succeeds(effects[k], readable, writable)
  {
    if effects == [] || !Succeeds(effects[0], readable, writable) then 0
    else 1 + Completed(effects[1..], readable, writable)
  }

  /** The process run: the usage paths print and succeed, a bad index
      panics, a bad number fails before any effect, and a plan performs its
      effects in order, stopping at the first failure (`?`) and printing its
      message only when all succeed. */
  function Execute(o: Outcome, readable: set<string>, writable: set<string>): (run: Run)
    ensures run.status == Panic <==> o.IndexOutOfRange?
    ensures !o.Planned? ==> run.performed == []
    ensures o.Planned? ==> run.performed <= o.plan.effects
    ensures o.Planned? ==>
              (run.status == Success
               <==> forall i | 0 <= i < |o.plan.effects| :: Succeeds(o.plan.effects[i], readable, writable))
    ensures run.status == Failure && o.Planned? ==>
              && |run.performed| < |o.plan.effects|
              && !Succeeds(o.plan.effects[|run.performed|], readable, writable)
    ensures run.output.Printed? <==> o.Planned? && run.status == Success
    ensures o.Usage? ==> run == Run(Success, [], UsageText)
    ensures o.CommandUsage? ==> run == Run(Success, [], UsageLine(o.command))
    ensures o.BadNumber? ==> run.status == Failure
    ensures o.Planned? ==> forall i | 0 <= i < |run.performed| :: Succeeds(run.performed[i], readable, writable)
    ensures o.Planned? && run.status == Success ==>
              run.performed == o.plan.effects && run.output == Printed(o.plan.message)
  {
    match o
    case Usage => Run(Success, [], UsageText)
    case CommandUsage(c) => Run(Success, [], UsageLine(c))
    case IndexOutOfRange(_, _) => Run(Panic, [], Silent)
    case BadNumber(_, _) => Run(Failure, [], Silent)
    case Planned(plan) =>
      var k := Completed(plan.effects, readable, writable);
      if k == |plan.effects| then Run(Success, plan.effects, Printed(plan.message))
      else Run(Failure, plan.effects[..k], Silent)
  }

  // ---------------------------------------------------------------------------
  // Properties of the dispatcher

  /** With no subcommand, or one that is not exactly a known word, the usage
      text is printed, the run succeeds and no file is opened or saved. */
  lemma NoCommandPrintsUsage(args: seq<string>, g: Guards, readable: set<string>, writable: set<string>)
    requires |args| < 2 || args[1] !in {"resize", "dpi", "convert", "compress"}
    ensures Execute(Dispatch(args, g), readable, writable) == Run(Success, [], UsageText)
  {
  }

  /** Too few arguments for a known subcommand print that subcommand's usage
      line and succeed without touching a file. */
  lemma ShortCommandPrintsItsUsage(args: seq<string>, c: Command, g: Guards, readable: set<string>, writable: set<string>)
    requires 2 <= |args| < MinArgs(c, g) && args[1] == Name(c)
    ensures Execute(Dispatch(args, g), readable, writable) == Run(Success, [], UsageLine(c))
  {
  }

  /** A malformed or out-of-range number stops the run before any image is
      read or written, whatever the state of the files. */
  lemma BadNumberTouchesNoFile(args: seq<string>, g: Guards, readable: set<string>, writable: set<string>)
    requires Dispatch(args, g).BadNumber?
    ensures Execute(Dispatch(args, g), readable, writable) == Run(Failure, [], Silent)
  {
  }

  /** Numbers are checked before the input is opened: once the guard passes
      and the numeric arguments are present, a number that does not fit its
      type is reported at its index, whatever the paths are. */
  lemma NumbersParsedBeforeOpening(args: seq<string>, g: Guards)
    requires 2 <= |args| && CommandNamed(args[1]).Some?
    requires MinArgs(CommandNamed(args[1]).value, g) <= |args|
    ensures args[1] == "resize" && 5 <= |args| && ParseUnsigned(args[4], U32_MAX).Err? ==>
              Dispatch(args, g) == BadNumber(4, ParseUnsigned(args[4], U32_MAX).error)
    ensures args[1] == "resize" && 6 <= |args| && ParseUnsigned(args[4], U32_MAX).Ok?
              && ParseUnsigned(args[5], U32_MAX).Err? ==>
              Dispatch(args, g) == BadNumber(5, ParseUnsigned(args[5], U32_MAX).error)
    ensures args[1] == "dpi" && 5 <= |args| && ParseUnsigned(args[4], U32_MAX).Err? ==>
              Dispatch(args, g) == BadNumber(4, ParseUnsigned(args[4], U32_MAX).error)
    ensures args[1] == "compress" && 5 <= |args| && ParseUnsigned(args[4], U8_MAX).Err? ==>
              Dispatch(args, g) == BadNumber(4, ParseUnsigned(args[4], U8_MAX).error)
  {
  }

  /** A quality above 255 does not fit a `u8`: `compress` stops with an
      overflow before the input is opened. */
  lemma QualityAboveByteIsRejected(program: string, input: string, output: string, q: nat, g: Guards,
                                   readable: set<string>, writable: set<string>)
    requires q > U8_MAX && g.others <= 5
    ensures Dispatch([program, "compress", input, output, Decimal(q)], g) == BadNumber(4, PosOverflow)
    ensures Execute(Dispatch([program, "compress", input, output, Decimal(q)], g), readable, writable)
            == Run(Failure, [], Silent)
  {
    ParseDecimalRoundTrip(q, U8_MAX);
  }

  /** Every quality that fits a `u8`, including those above 100, reaches the
      JPEG encoder unchanged when the output path names a JPEG file. */
  lemma QualityPassedUnclamped(program: string, input: string, output: string, q: nat, g: Guards)
    requires q <= U8_MAX && g.others <= 5 && GetFormat(output).Jpeg?
    ensures Dispatch([program, "compress", input, output, Decimal(q)], g)
            == Planned(Plan([Open(input), SaveWithFormat(output, Jpeg(q))], Compressed(q, output)))
  {
    var args := [program, "compress", input, output, Decimal(q)];
    ParseDecimalRoundTrip(q, U8_MAX);
    assert args[1] == "compress" && args[2] == input && args[3] == output && args[4] == Decimal(q);
    CompressWithQuality(args, q, g);
  }

  /** `compress` with a quality that parses, on a JPEG output path. */
  lemma CompressWithQuality(args: seq<string>, q: nat, g: Guards)
    requires |args| == 5 && args[1] == "compress" && g.others <= 5 && GetFormat(args[3]).Jpeg?
    requires ParseUnsigned(args[4], U8_MAX) == Ok(q)
    ensures Dispatch(args, g) == Planned(Plan([Open(args[2]), SaveWithFormat(args[3], Jpeg(q))], Compressed(q, args[3])))
  {
    assert CommandNamed(args[1]) == Some(Compress);
    var r := CompressImage(args, g);
    assert r.Next? && r.value == Plan([Open(args[2]), SaveWithFormat(args[3], Jpeg(q))], Compressed(q, args[3]));
    assert Handle(Compress, args, g) == r;
  }

  /** Two argument vectors that agree except at index 4. */
  predicate DifferOnlyAtFour(a: seq<string>, b: seq<string>) {
    |a| == |b| && 5 <= |a| && forall i | 0 <= i < |a| && i != 4 :: a[i] == b[i]
  }

  /** `compress` decides on the output path, not on any argument: when the
      path does not name a JPEG file, the quality has no effect at all. */
  lemma QualityIgnoredUnlessJpeg(a: seq<string>, b: seq<string>, g: Guards)
    requires DifferOnlyAtFour(a, b) && a[1] == "compress" && !GetFormat(a[3]).Jpeg?
    requires ParseUnsigned(a[4], U8_MAX).Ok? && ParseUnsigned(b[4], U8_MAX).Ok?
    ensures Dispatch(a, g) == Dispatch(b, g)
  {
    assert a[1] == b[1] && a[2] == b[2] && a[3] == b[3];
  }

  /** `dpi` never passes its value to the save: two runs that differ only in
      the dpi perform the same effects and differ only in the message. */
  lemma DpiValueNotSaved(a: seq<string>, b: seq<string>, g: Guards)
    requires DifferOnlyAtFour(a, b) && a[1] == "dpi" && g.others <= 5
    requires ParseUnsigned(a[4], U32_MAX).Ok? && ParseUnsigned(b[4], U32_MAX).Ok?
    ensures Dispatch(a, g).Planned? && Dispatch(b, g).Planned?
    ensures Dispatch(a, g).plan.effects == Dispatch(b, g).plan.effects
    ensures Dispatch(a, g).plan.effects[1] == SaveWithFormat(a[3], GetFormat(a[3]))
  {
    assert a[1] == b[1] && a[2] == b[2] && a[3] == b[3];
  }

  /** `convert` saves in the format its argument names, whatever extension
      the output path carries. */
  lemma ConvertIgnoresOutputExtension(a: seq<string>, b: seq<string>, g: Guards)
    requires |a| == |b| && 5 <= |a| && g.others <= 5
    requires a[1] == b[1] == "convert" && a[2] == b[2] && a[4] == b[4]
    requires ConvertFormat(a[4]).Some?
    ensures Dispatch(a, g).Planned? && Dispatch(b, g).Planned?
    ensures Dispatch(a, g).plan.effects[1] == SaveWithFormat(a[3], ConvertFormat(a[4]).value)
    ensures Dispatch(b, g).plan.effects[1] == SaveWithFormat(b[3], ConvertFormat(a[4]).value)
  {
  }

  /** An input that cannot be opened fails every plan before anything is
      saved, an unsupported `convert` format included. */
  lemma UnreadableInputFails(args: seq<string>, g: Guards, readable: set<string>, writable: set<string>)
    requires Dispatch(args, g).Planned? && args[2] !in readable
    ensures Execute(Dispatch(args, g), readable, writable) == Run(Failure, [], Silent)
  {
  }

  /** An unsupported `convert` format, with a readable input, opens the input,
      prints the supported list and succeeds without saving. */
  lemma UnsupportedFormatSavesNothing(args: seq<string>, g: Guards, readable: set<string>, writable: set<string>)
    requires 5 <= |args| && g.others <= |args| && args[1] == "convert"
    requires ConvertFormat(args[4]).None? && args[2] in readable
    ensures Execute(Dispatch(args, g), readable, writable) == Run(Success, [Open(args[2])], Printed(SupportedFormats))
  {
  }

  // ---------------------------------------------------------------------------
  // The argument-count guards

  /** `resize` tests `args.len() < 5` and then reads `args[5]`: with exactly
      five arguments and a width that parses, the read panics. */
  lemma ResizeGuardReadsPastEnd(args: seq<string>)
    requires 2 <= |args| && args[1] == "resize"
    ensures Dispatch(args, AS_WRITTEN).IndexOutOfRange?
            <==> |args| == 5 && ParseUnsigned(args[4], U32_MAX).Ok?
    ensures Dispatch(args, AS_WRITTEN).IndexOutOfRange? ==> Dispatch(args, AS_WRITTEN) == IndexOutOfRange(5, 5)
  {
  }

  /** `dpi`, `convert` and `compress` test `args.len() < 4` and then read
      `args[4]`: with exactly four arguments the read panics. */
  lemma ShortGuardsReadPastEnd(args: seq<string>)
    requires 2 <= |args| && args[1] in {"dpi", "convert", "compress"}
    ensures Dispatch(args, AS_WRITTEN).IndexOutOfRange? <==> |args| == 4
    ensures |args| == 4 ==> Dispatch(args, AS_WRITTEN) == IndexOutOfRange(4, 4)
  {
  }

  /** With guards that cover the highest index read, no argument vector makes
      a handler read past the end; the guards then differ from the written
      ones exactly on the vectors one argument short, which now get the usage
      line. */
  lemma IntendedGuardsStayInRange(args: seq<string>)
    ensures !Dispatch(args, INTENDED).IndexOutOfRange?
    ensures Dispatch(args, INTENDED) != Dispatch(args, AS_WRITTEN) <==>
              && 2 <= |args| && CommandNamed(args[1]).Some?
              && |args| == MinArgs(CommandNamed(args[1]).value, AS_WRITTEN)
    ensures Dispatch(args, INTENDED) != Dispatch(args, AS_WRITTEN) ==>
              Dispatch(args, INTENDED) == CommandUsage(CommandNamed(args[1]).value)
  {
  }
}
