/**
 The durable telemt update of one node and its recovery after a crash.

 `Node` holds what survives a crash (files and the journal), the telemt process the agent controls,
 and the update the agent remembers. Every external call answers with a `Reply` chosen freely: it may
 succeed, fail, or be the moment the agent dies, and a call that fails or dies may still have taken
 effect. A method that returns `Crash` stopped right there, so a contract that also covers `Crash`
 speaks about every point at which the agent can be killed.

 The maintenance mutex makes the operations below exclude each other; each is one method.
 */
module TelemtUpdate {
  import opened Options
  import opened Versions

  /** A telemt build: the version it reports once it runs, whether it has a WEB runtime, and whatever else tells builds apart. */
  datatype Image = Image(reports: string, web: bool, build: nat)

  /** SHA-256, taken to be injective. */
  datatype Digest<T> = Sha256(content: T)

  datatype Outcome = Updated | Refused | Failed | RolledBack | RollbackFailed | AdmissionClosed

  datatype Journal = Journal(
    outcome: Option<Outcome>,
    target: string,
    active: bool,
    version: string,
    fixedPaths: bool,
    binarySum: Digest<Image>,
    configSum: Digest<string>,
    hadWeb: bool,
    admissionOpen: bool)

  datatype JournalFile = Missing | Unreadable | Stored(j: Journal)

  /** How version reports are read: what is recorded of one, and when two name the same version. */
  datatype Reading = Reading(
    recorded: string -> string, same: (string, string) -> bool, installed: (string, string) -> bool)

  const AGENT_READING := Reading(Recorded, SameVersion, SameTelemtVersion)

  datatype Reply = Ok | Err | Crash

  datatype Phase = Idle | Running | Finished

  datatype Request = Request(version: string, shaValid: bool, url: string, requireDrain: bool, drainTimeoutSecs: nat)

  datatype Capabilities = Capabilities(
    webPause: bool, webResume: bool, webRuntime: bool, webDrain: bool)

  datatype Plan = Plan(
    preserveClosed: bool, installed: string, drain: bool, pause: bool, resume: bool, hadWeb: bool)

  datatype DrainState = Draining | Completed | Cancelled

  datatype Drain = Drain(state: DrainState, sessions: nat, streams: nat, websockets: nat)

  datatype Lifecycle = Lifecycle(admissionOpen: bool, drained: bool, drain: Option<Drain>)

  datatype Event =
    | StartUp(reboot: bool)
    | Update(req: Request, caps: Capabilities, staged: Image)
    | Control(open: bool)
    | Configure(text: string)
    | Relay

  class Node {
    const reading: Reading

    // Files.
    var binary: Option<Image>
    var config: string
    var binaryPrev: Option<Image>
    var configPrev: Option<string>
    var goodBinary: Option<Image>
    var goodConfig: Option<string>
    var journal: JournalFile

    // The telemt process: the version it reports while it answers, whether it has a WEB runtime, and WEB admission.
    var running: Option<string>
    var web: bool
    var admission: bool

    // The update the agent runs or ran last; lost with the agent.
    var phase: Phase
    var outcome: Option<Outcome>
    var drained: bool

    // How many external calls did not succeed so far.
    ghost var faults: nat
    // The files and the admission the last recorded intent found.
    ghost var baseBinary: Image
    ghost var baseConfig: string
    ghost var baseAdmission: bool
    // Set once an update or a recovery touches the node without an intent that protects it.
    ghost var trespass: bool
    // The last write of the journal was reported as failed and reached the file all the same.
    ghost var slipped: bool

    ghost predicate ActiveIntent()
      reads this`journal
    {
      journal.Stored? && journal.j.active
    }

    /** The journal and the known-good copies are what it takes to bring the node back. */
    ghost predicate Recoverable()
      reads this`journal, this`goodBinary, this`goodConfig, this`baseBinary, this`baseConfig, this`baseAdmission
    {
      && journal.Stored?
      && journal.j.fixedPaths
      && goodBinary == Some(baseBinary) && journal.j.binarySum == Sha256(baseBinary)
      && goodConfig == Some(baseConfig) && journal.j.configSum == Sha256(baseConfig)
      && journal.j.version == reading.recorded(baseBinary.reports)
      && (journal.j.hadWeb ==> baseBinary.web && journal.j.admissionOpen == baseAdmission)
    }

    ghost predicate Armed()
      reads this`journal, this`goodBinary, this`goodConfig, this`baseBinary, this`baseConfig, this`baseAdmission
    {
      ActiveIntent() && Recoverable()
    }

    /** The node is back where the recorded intent found it. */
    ghost predicate Restored(hadWeb: bool)
      reads this`binary, this`config, this`running, this`web, this`admission, this`baseBinary, this`baseConfig, this`baseAdmission
    {
      && binary == Some(baseBinary)
      && config == baseConfig
      && running == Some(baseBinary.reports) && web == baseBinary.web
      && (hadWeb ==> admission == baseAdmission)
    }

    /** What every operation keeps, wherever it is interrupted. */
    ghost predicate Valid()
      reads this
    {
      && !trespass
      && (ActiveIntent() ==> Recoverable())
      && (!ActiveIntent() && running.Some? ==> binary.Some? && running.value == binary.value.reports && web == binary.value.web)
    }

    /** The node an update leaves alone: nothing it could have to undo has changed. */
    twostate predicate Untouched()
      reads this
    {
      && binary == old(binary) && config == old(config)
      && running == old(running) && web == old(web) && admission == old(admission)
    }

    constructor (image: Image, cfg: string, open: bool)
      ensures Valid() && reading == AGENT_READING && journal == Missing && binary == Some(image) && config == cfg
    {
      reading := AGENT_READING;
      binary, config := Some(image), cfg;
      binaryPrev, configPrev, goodBinary, goodConfig := None, None, None, None;
      journal := Missing;
      running, web, admission := Some(image.reports), image.web, open;
      phase, outcome, drained := Idle, None, false;
      faults, trespass, slipped := 0, false, false;
      baseBinary, baseConfig, baseAdmission := image, cfg, open;
    }

    // ---- external calls -----------------------------------------------------------------

    method Attempt() returns (r: Reply)
      modifies this`faults
      ensures faults >= old(faults)
      ensures r.Ok? <==> faults == old(faults)
    {
      r := *;
      if !r.Ok? {
        faults := faults + 1;
      }
    }

    /** A call with an effect; the effect is certain only when the call succeeds. */
    method AttemptEffect() returns (r: Reply, applied: bool)
      modifies this`faults
      ensures faults >= old(faults)
      ensures r.Ok? <==> faults == old(faults)
      ensures r.Ok? ==> applied
    {
      r := Attempt();
      applied := *;
      if r.Ok? {
        applied := true;
      }
    }

    /** Atomic replacement of the journal; a failure after the rename leaves the new one in place. */
    method WriteJournal(j: Journal) returns (r: Reply)
      modifies this`journal, this`slipped, this`faults
      ensures faults >= old(faults)
      ensures r.Ok? <==> faults == old(faults)
      ensures journal == Stored(j) || (journal == old(journal) && !r.Ok?)
      ensures slipped ==> !r.Ok? && journal == Stored(j)
      ensures !r.Ok? && !slipped ==> journal == old(journal)
    {
      var applied;
      r, applied := AttemptEffect();
      if applied {
        journal := Stored(j);
      }
      slipped := applied && !r.Ok?;
    }

    method InstallBinary(image: Option<Image>) returns (r: Reply)
      modifies this`binary, this`faults, this`trespass
      ensures faults >= old(faults)
      ensures r.Ok? <==> faults == old(faults)
      ensures binary == image || (binary == old(binary) && !r.Ok?)
      ensures trespass == (old(trespass) || !Armed())
    {
      trespass := trespass || !Armed();
      var applied;
      r, applied := AttemptEffect();
      if applied {
        binary := image;
      }
    }

    method InstallConfig(text: string) returns (r: Reply)
      modifies this`config, this`faults, this`trespass
      ensures faults >= old(faults)
      ensures r.Ok? <==> faults == old(faults)
      ensures config == text || (config == old(config) && !r.Ok?)
      ensures trespass == (old(trespass) || !Armed())
    {
      trespass := trespass || !Armed();
      var applied;
      r, applied := AttemptEffect();
      if applied {
        config := text;
      }
    }

    /**
     Restarts telemt and waits for it to be ready. telemt comes up with the binary on disk, and what
     it then does with WEB admission is its own affair. A failed restart may leave the old process,
     the new one, or none.
     */
    method RestartTelemt() returns (r: Reply)
      modifies this`running, this`web, this`admission, this`faults, this`trespass
      ensures faults >= old(faults)
      ensures r.Ok? ==>
                faults == old(faults) && binary.Some? && running == Some(binary.value.reports) && web == binary.value.web
      ensures faults == old(faults) ==> !r.Crash? && (binary.Some? ==> r.Ok?)
      ensures running == old(running) || running.None? || (binary.Some? && running == Some(binary.value.reports))
      ensures trespass == (old(trespass) || !Armed())
    {
      trespass := trespass || !Armed();
      var applied;
      r, applied := AttemptEffect();
      if applied {
        admission := *;
        if binary.None? {
          running := None;
          if r.Ok? {
            r := Err;
            faults := faults + 1;
          }
        } else {
          running, web := Some(binary.value.reports), binary.value.web;
        }
      } else {
        var down := *;
        if down {
          running := None;
        }
      }
    }

    /** WebPause and WebResume. Without a WEB runtime telemt knows no such request, which is an answer and no fault. */
    method WebSwitch(open: bool) returns (r: Reply)
      modifies this`admission, this`faults, this`trespass
      ensures faults >= old(faults)
      ensures r.Ok? ==> faults == old(faults) && running.Some? && web && admission == open
      ensures faults == old(faults) ==> running.Some? && (r.Ok? <==> web) && !r.Crash?
      ensures admission == open || admission == old(admission)
      ensures trespass == (old(trespass) || !Armed())
    {
      trespass := trespass || !Armed();
      if running.None? {
        faults := faults + 1;
        return Err;
      }
      var applied;
      r, applied := AttemptEffect();
      if !web {
        return if r.Ok? then Err else r;
      }
      if applied {
        admission := open;
      }
    }

    /** telemt's WEB status, if it has a WEB runtime; an answer without the operator lifecycle counts as a fault. */
    method WebStatus() returns (r: Reply, lc: Option<Lifecycle>)
      modifies this`faults
      ensures faults >= old(faults)
      ensures r.Ok? ==> running.Some? && web
      ensures faults == old(faults) ==> running.Some? && (r.Ok? <==> web) && (r.Ok? <==> lc.Some?) && !r.Crash?
      ensures lc.Some? ==> r.Ok? && faults == old(faults) && lc.value.admissionOpen == admission
    {
      lc := None;
      if running.None? {
        faults := faults + 1;
        return Err, lc;
      }
      r := Attempt();
      if r.Ok? && !web {
        r := Err;
      } else if r.Ok? {
        var present := *;
        if present {
          var rest: Lifecycle := *;
          lc := Some(rest.(admissionOpen := admission));
        } else {
          faults := faults + 1;
        }
      }
    }

    method SystemInfo() returns (r: Reply, v: string)
      modifies this`faults
      ensures faults >= old(faults)
      ensures r.Ok? ==> faults == old(faults) && running == Some(v)
      ensures faults == old(faults) ==> !r.Crash? && (running.Some? ==> r.Ok?)
    {
      r := Attempt();
      v := "";
      if r.Ok? {
        if running.Some? {
          v := running.value;
        } else {
          r := Err;
          faults := faults + 1;
        }
      }
    }

    method VerifyTelemtVersion(want: string) returns (r: Reply)
      modifies this`faults
      ensures faults >= old(faults) && (r.Ok? ==> faults == old(faults))
      ensures r.Ok? ==> running.Some? && reading.same(running.value, want)
      ensures faults == old(faults) ==> !r.Crash? && (running.Some? && reading.same(running.value, want) ==> r.Ok?)
    {
      var v;
      r, v := SystemInfo();
      if r.Ok? && !reading.same(v, want) {
        r := Err;
      }
    }

    method VerifiedBinary(sum: Digest<Image>) returns (r: Reply, image: Option<Image>)
      modifies this`faults
      ensures faults >= old(faults) && (r.Ok? ==> faults == old(faults))
      ensures r.Ok? ==> image.Some? && image == goodBinary && Sha256(image.value) == sum
      ensures faults == old(faults) && goodBinary.Some? && Sha256(goodBinary.value) == sum ==> r.Ok?
    {
      r := Attempt();
      image := goodBinary;
      if r.Ok? && (image.None? || Sha256(image.value) != sum) {
        r := Err;
      }
    }

    method VerifiedConfig(sum: Digest<string>) returns (r: Reply, text: Option<string>)
      modifies this`faults
      ensures faults >= old(faults) && (r.Ok? ==> faults == old(faults))
      ensures r.Ok? ==> text.Some? && text == goodConfig && Sha256(text.value) == sum
      ensures faults == old(faults) && goodConfig.Some? && Sha256(goodConfig.value) == sum ==> r.Ok?
    {
      r := Attempt();
      text := goodConfig;
      if r.Ok? && (text.None? || Sha256(text.value) != sum) {
        r := Err;
      }
    }

    // ---- the write-ahead intent ---------------------------------------------------------

    /** Refuses whenever the journal is active or cannot be read. */
    method CheckUpdateJournal() returns (r: Reply)
      modifies this`faults
      ensures faults >= old(faults) && (r.Ok? ==> faults == old(faults))
      ensures r.Ok? ==> !journal.Unreadable? && !ActiveIntent()
      ensures faults == old(faults) ==> !r.Crash? && (!journal.Unreadable? && !ActiveIntent() ==> r.Ok?)
    {
      r := Attempt();
      if r.Ok? {
        match journal
        case Missing =>
        case Unreadable => r := Err;
        case Stored(j) => if j.active { r := Err; }
      }
    }

    /** Copies the binary to its known-good place and returns its sum. */
    method SaveBinary() returns (r: Reply, sum: Digest<Image>)
      modifies this`goodBinary, this`faults
      ensures faults >= old(faults) && (r.Ok? ==> faults == old(faults))
      ensures r.Ok? ==> binary.Some? && goodBinary == binary && sum == Sha256(binary.value)
      ensures faults == old(faults) && binary.Some? ==> r.Ok?
      ensures goodBinary == binary || (goodBinary == old(goodBinary) && !r.Ok?)
    {
      sum := Sha256(Image("", false, 0));
      r := Attempt();
      if !r.Ok? {
        return;
      }
      if binary.None? {
        return Err, sum;
      }
      sum := Sha256(binary.value);
      var applied;
      r, applied := AttemptEffect();
      if applied {
        goodBinary := binary;
      }
    }

    method SaveConfig() returns (r: Reply, sum: Digest<string>)
      modifies this`goodConfig, this`faults
      ensures faults >= old(faults) && (r.Ok? ==> faults == old(faults))
      ensures r.Ok? ==> goodConfig == Some(config) && sum == Sha256(config)
      ensures faults == old(faults) ==> r.Ok?
    {
      sum := Sha256(config);
      r := Attempt();
      if !r.Ok? {
        return;
      }
      var applied;
      r, applied := AttemptEffect();
      if applied {
        goodConfig := Some(config);
      }
    }

    /** WEB admission as the update finds it, closed without a WEB runtime. */
    method FoundAdmission(hadWeb: bool) returns (r: Reply, open: bool)
      modifies this`faults
      ensures faults >= old(faults) && (r.Ok? ==> faults == old(faults))
      ensures r.Ok? && hadWeb ==> running.Some? && web && open == admission
      ensures r.Ok? && !hadWeb ==> !open
      ensures faults == old(faults) ==> !r.Crash? && (r.Ok? <==> (hadWeb ==> web))
    {
      if !hadWeb {
        return Ok, false;
      }
      var lc;
      r, lc := WebStatus();
      open := lc.Some? && lc.value.admissionOpen;
      if r.Ok? && lc.None? {
        r := Err;
      }
    }

    method SaveCopies() returns (r: Reply, binarySum: Digest<Image>, configSum: Digest<string>)
      modifies this`goodBinary, this`goodConfig, this`faults
      ensures faults >= old(faults) && (r.Ok? ==> faults == old(faults))
      ensures r.Ok? ==> binary.Some? && goodBinary == binary && binarySum == Sha256(binary.value)
      ensures r.Ok? ==> goodConfig == Some(config) && configSum == Sha256(config)
      ensures faults == old(faults) && binary.Some? ==> r.Ok?
    {
      configSum := Sha256(config);
      r, binarySum := SaveBinary();
      if r.Ok? {
        r, configSum := SaveConfig();
      }
    }

    /**
     Records the intent. The known-good copies are in place before the journal turns active, so at
     every point the journal is inactive as before, or active and recoverable. When this succeeds the
     node is armed, and the base is what was on the node.
     */
    method PrepareUpdateJournal(plan: Plan, target: string) returns (r: Reply, j: Journal)
      requires Valid() && !ActiveIntent()
      requires binary.Some? ==> plan.installed == reading.recorded(binary.value.reports)
      modifies this`goodBinary, this`goodConfig, this`journal, this`slipped, this`faults
      modifies this`baseBinary, this`baseConfig, this`baseAdmission
      ensures Valid()
      ensures r.Ok? ==>
                Armed() && journal == Stored(j) && j.hadWeb == plan.hadWeb && (j.hadWeb ==> j.admissionOpen == admission)
      ensures ActiveIntent() ==> binary == Some(baseBinary) && config == baseConfig && admission == baseAdmission
      ensures journal == old(journal) || ActiveIntent()
      ensures !r.Ok? ==> (ActiveIntent() <==> slipped)
      ensures old(journal).Unreadable? ==> !r.Ok? && journal == old(journal)
      ensures faults >= old(faults) && (r.Ok? ==> faults == old(faults))
      ensures faults == old(faults) && binary.Some? ==>
                !r.Crash? && (r.Ok? <==> !old(journal).Unreadable? && (plan.hadWeb ==> web))
    {
      j := Journal(None, target, true, plan.installed, true, Sha256(Image("", false, 0)), Sha256(""), plan.hadWeb, false);
      slipped := false;
      r := CheckUpdateJournal();
      if !r.Ok? {
        return;
      }
      r := Attempt();  // the state directory
      if !r.Ok? {
        return;
      }
      var open;
      r, open := FoundAdmission(plan.hadWeb);
      j := j.(admissionOpen := open);
      if !r.Ok? {
        return;
      }
      var binarySum, configSum;
      r, binarySum, configSum := SaveCopies();
      j := j.(binarySum := binarySum, configSum := configSum);
      if !r.Ok? {
        return;
      }
      r := WriteIntent(j);
    }

    /** Writes the journal that makes the intent active, over copies that are in place. */
    method WriteIntent(j: Journal) returns (r: Reply)
      requires Valid() && !ActiveIntent() && j.active && j.fixedPaths
      requires binary.Some? && goodBinary == binary && j.binarySum == Sha256(binary.value) && j.version == reading.recorded(binary.value.reports)
      requires goodConfig == Some(config) && j.configSum == Sha256(config)
      requires j.hadWeb ==> binary.value.web && j.admissionOpen == admission
      modifies this`journal, this`slipped, this`faults, this`baseBinary, this`baseConfig, this`baseAdmission
      ensures Valid() && (r.Ok? ==> ActiveIntent() && journal == Stored(j))
      ensures ActiveIntent() ==>
                Recoverable() && binary == Some(baseBinary) && config == baseConfig && admission == baseAdmission
      ensures journal == old(journal) || ActiveIntent()
      ensures !r.Ok? ==> (ActiveIntent() <==> slipped)
      ensures faults >= old(faults) && (faults == old(faults) <==> r.Ok?)
    {
      baseBinary, baseConfig, baseAdmission := binary.value, config, admission;
      r := WriteJournal(j);
    }

    /** Reads the saved copies, checks their sums and writes them over the binary and the config. */
    method ReinstallSavedFiles(j: Journal) returns (r: Reply)
      requires Armed() && !trespass && j == journal.j
      modifies this`binary, this`config, this`faults, this`trespass
      ensures !trespass
      ensures faults >= old(faults) && (r.Ok? ==> faults == old(faults))
      ensures r.Ok? ==> binary == Some(baseBinary) && config == baseConfig
      ensures faults == old(faults) ==> r.Ok?
    {
      var image, text;
      r, image := VerifiedBinary(j.binarySum);
      if !r.Ok? {
        return;
      }
      r, text := VerifiedConfig(j.configSum);
      if !r.Ok? {
        return;
      }
      r := InstallBinary(image);
      if !r.Ok? {
        return;
      }
      r := InstallConfig(text.value);
    }

    /**
     Reinstalls the saved files, restarts telemt on them and verifies the version it reports. With no
     fault on the way this succeeds exactly when that version can be verified.
     */
    method PutSavedFilesBack(j: Journal) returns (r: Reply)
      requires Armed() && !trespass && j == journal.j
      modifies this`binary, this`config, this`running, this`web, this`admission, this`faults, this`trespass
      ensures !trespass
      ensures faults >= old(faults) && (r.Ok? ==> faults == old(faults))
      ensures r.Ok? ==>
                binary == Some(baseBinary) && config == baseConfig && running == Some(baseBinary.reports) && web == baseBinary.web
      ensures r.Ok? ==> reading.same(baseBinary.reports, j.version)
      ensures faults == old(faults) && reading.same(baseBinary.reports, j.version) ==> r.Ok?
    {
      r := ReinstallSavedFiles(j);
      if !r.Ok? {
        return;
      }
      r := RestartTelemt();
      if !r.Ok? {
        return;
      }
      r := VerifyTelemtVersion(j.version);
    }

    /** Brings admission to the recorded state and has telemt confirm it. */
    method RestoreAdmission(open: bool) returns (r: Reply)
      requires Armed() && !trespass
      modifies this`admission, this`faults, this`trespass
      ensures !trespass
      ensures faults >= old(faults) && (r.Ok? ==> faults == old(faults))
      ensures r.Ok? ==> admission == open
      ensures faults == old(faults) && web ==> r.Ok?
    {
      r := WebSwitch(open);
      if !r.Ok? {
        return;
      }
      var lc;
      r, lc := WebStatus();
      if r.Ok? && (lc.None? || lc.value.admissionOpen != open) {
        r := Err;
      }
    }

    /**
     Start-up recovery. An active intent is closed only over a restored node; when every external call
     succeeds it is closed exactly when the recorded version can be verified against what the saved
     binary reports, and otherwise it stays active for good.
     */
    method RecoverUpdate() returns (r: Reply)
      requires Valid()
      modifies this`binary, this`config, this`running, this`web, this`admission, this`journal, this`slipped
      modifies this`phase, this`outcome, this`faults, this`trespass
      ensures Valid()
      ensures faults >= old(faults) && (r.Ok? ==> faults == old(faults))
      ensures !old(ActiveIntent()) ==> Untouched() && journal == old(journal)
      ensures ActiveIntent() ==> journal == old(journal)
      ensures old(ActiveIntent()) && !ActiveIntent() ==>
                Verifiable() && Restored(old(journal).j.hadWeb)
                && journal == Stored(old(journal).j.(active := false, outcome := Some(RolledBack)))
      ensures r.Ok? && old(ActiveIntent()) ==> !ActiveIntent() && phase == Finished && outcome == Some(RolledBack)
      ensures r.Ok? && !old(ActiveIntent()) && journal.Stored? && journal.j.outcome.Some? ==>
                phase == Finished && outcome == journal.j.outcome
      ensures !r.Ok? ==> phase == old(phase) && outcome == old(outcome)
      ensures old(ActiveIntent()) && faults == old(faults) ==>
                (r.Ok? <==> Verifiable())
                && (ActiveIntent() <==> !r.Ok?)
    {
      r := Attempt();  // reading the journal
      if !r.Ok? || journal.Missing? {
        return;
      }
      if journal.Unreadable? {
        return Err;
      }
      var j := journal.j;
      if !j.active {
        if j.outcome.Some? {
          End(j.outcome.value);
        }
        return Ok;
      }
      if !j.fixedPaths {
        return Err;
      }
      r := PutSavedFilesBack(j);
      if !r.Ok? {
        return;
      }
      if j.hadWeb {
        r := RestoreAdmission(j.admissionOpen);
        if !r.Ok? {
          return;
        }
      }
      r := WriteJournal(j.(active := false, outcome := Some(RolledBack)));
      if !r.Ok? {
        return;
      }
      End(RolledBack);
    }

    // ---- the maintenance sequence -------------------------------------------------------

    method End(result: Outcome)
      modifies this`phase, this`outcome
      ensures phase == Finished && outcome == Some(result)
    {
      phase, outcome := Finished, Some(result);
    }

    /** The request says what to install, another version runs, and the node can drain where that is demanded. */
    ghost predicate Feasible(req: Request, caps: Capabilities)
      reads this`running
    {
      && TrimSpace(req.version) != "" && req.shaValid && TrimSpace(req.url) != ""
      && running.Some? && !reading.installed(reading.recorded(running.value), req.version)
      && (req.requireDrain ==> caps.webDrain)
    }

    /** Settles what the node can do; nothing on it changes. */
    method UpdatePreflight(req: Request, caps: Capabilities) returns (r: Reply, plan: Plan)
      requires Valid() && !ActiveIntent()
      modifies this`faults
      ensures faults >= old(faults) && (r.Ok? ==> faults == old(faults))
      ensures r.Ok? ==> Feasible(req, caps) && binary.Some?
      ensures r.Ok? ==>
                plan == Plan(false, reading.recorded(binary.value.reports), caps.webDrain, caps.webPause, caps.webResume, caps.webRuntime)
      ensures faults == old(faults) ==> !r.Crash? && (r.Ok? <==> Feasible(req, caps))
    {
      plan := Plan(false, "", false, false, false, false);
      if TrimSpace(req.version) == "" || !req.shaValid || TrimSpace(req.url) == "" {
        return Err, plan;
      }
      var v;
      r, v := SystemInfo();
      if !r.Ok? {
        return;
      }
      plan := plan.(installed := reading.recorded(v));
      if reading.installed(plan.installed, req.version) {
        return Err, plan;
      }
      r := Attempt();  // capabilities
      if !r.Ok? {
        return;
      }
      plan := plan.(pause := caps.webPause, resume := caps.webResume, hadWeb := caps.webRuntime);
      if caps.webDrain {
        plan := plan.(drain := true);
      } else if req.requireDrain {
        return Err, plan;
      }
    }

    method UpdatePause(plan: Plan) returns (r: Reply)
      requires Armed() && !trespass
      modifies this`admission, this`faults, this`trespass
      ensures !trespass && faults >= old(faults) && (r.Ok? ==> faults == old(faults))
      ensures r.Ok? && plan.pause ==> !admission
      ensures faults == old(faults) ==> !r.Crash? && (r.Ok? <==> (plan.pause ==> web))
      ensures !plan.pause ==> admission == old(admission)
    {
      if !plan.pause {
        return Ok;
      }
      r := WebSwitch(false);
    }

    /**
     Succeeds only on a status that says the drain is over with nothing left alive. Without a fault it gives up on
     a status without a drain, on a cancelled drain, on one that is over with something left, or when its time is up.
     */
    method UpdateDrain(timeoutSecs: nat) returns (r: Reply, last: Option<Lifecycle>)
      requires Armed() && !trespass
      modifies this`admission, this`drained, this`faults, this`trespass
      ensures !trespass
      ensures faults >= old(faults) && (r.Ok? ==> faults == old(faults)) && (r.Crash? ==> faults > old(faults))
      ensures !r.Ok? ==> drained == old(drained)
      ensures r.Ok? ==> !admission && drained && last.Some? && last.value.drain.Some?
      ensures r.Ok? ==>
                var d := last.value.drain.value;
                && !d.state.Cancelled? && (last.value.drained || d.state.Completed?)
                && d.sessions == d.streams == d.websockets == 0
      ensures r.Err? && faults == old(faults) && web ==> last.Some?
      ensures r.Err? && faults == old(faults) && web && last.value.drain.Some? ==>
                var d := last.value.drain.value;
                || d.state.Cancelled? || (!last.value.drained && !d.state.Completed?)
                || d.sessions != 0 || d.streams != 0 || d.websockets != 0
    {
      last := None;
      r := WebSwitch(false);  // WebDrain closes admission first
      if !r.Ok? {
        return;
      }
      var left := timeoutSecs + 5;
      while left > 0
        invariant !trespass && !admission && faults == old(faults) && drained == old(drained)
        invariant left < timeoutSecs + 5 ==> last.Some?
        invariant last.Some? ==>
                    && last.value.drain.Some? && !last.value.drain.value.state.Cancelled?
                    && !last.value.drained && !last.value.drain.value.state.Completed?
      {
        var lc;
        r, lc := WebStatus();
        if !r.Ok? {
          return;
        }
        last := lc;
        if last.None? || last.value.drain.None? {
          return Err, last;
        }
        var d := last.value.drain.value;
        if d.state.Cancelled? {
          return Err, last;
        }
        if last.value.drained || d.state.Completed? {
          if d.sessions != 0 || d.streams != 0 || d.websockets != 0 {
            return Err, last;
          }
          drained := true;
          return Ok, last;
        }
        left := left - 1;
      }
      r := Err;
    }

    /** Keeps copies next to the files and renames the staged binary into place. */
    method SwapTelemtBinary(staged: Image) returns (r: Reply)
      requires Armed() && !trespass
      modifies this`binary, this`binaryPrev, this`configPrev, this`faults, this`trespass
      ensures !trespass
      ensures faults >= old(faults) && (faults == old(faults) <==> r.Ok?)
      ensures r.Ok? ==> binary == Some(staged) && binaryPrev == old(binary) && configPrev == Some(config)
    {
      r := Attempt();
      if !r.Ok? {
        binaryPrev := *;
        return;
      }
      binaryPrev := binary;
      r := Attempt();
      if !r.Ok? {
        configPrev := *;
        return;
      }
      configPrev := Some(config);
      r := InstallBinary(Some(staged));
      if !r.Ok? {
        return;
      }
      r := MakeExecutable();
    }

    /** A binary that cannot be made executable gives way to the one before it. */
    method MakeExecutable() returns (r: Reply)
      requires Armed() && !trespass
      modifies this`binary, this`faults, this`trespass
      ensures !trespass
      ensures faults >= old(faults) && (faults == old(faults) <==> r.Ok?)
      ensures r.Ok? ==> binary == old(binary)
      ensures r.Err? && faults == old(faults) + 1 ==> binary == binaryPrev
    {
      r := Attempt();  // chmod
      if r.Err? {
        var back := InstallBinary(binaryPrev);
        if back.Crash? {
          r := Crash;
        }
      }
    }

    method UpdateRestartAndVerify(plan: Plan, want: string) returns (r: Reply)
      requires Armed() && !trespass
      modifies this`running, this`web, this`admission, this`faults, this`trespass
      ensures !trespass
      ensures r.Ok? ==> binary.Some? && running == Some(binary.value.reports) && reading.same(binary.value.reports, want)
      ensures r.Ok? ==> web == binary.value.web && (plan.hadWeb ==> web)
      ensures faults >= old(faults) && (r.Ok? && !plan.hadWeb ==> faults == old(faults))
      ensures faults == old(faults) && binary.Some? ==>
                !r.Crash? && (r.Ok? <==> reading.same(binary.value.reports, want) && (plan.hadWeb ==> binary.value.web))
    {
      r := RestartTelemt();
      if !r.Ok? {
        return;
      }
      r := VerifyTelemtVersion(want);
      if !r.Ok? {
        return;
      }
      if plan.hadWeb {
        r := Attempt();  // the decoy behind its origin
        if !r.Ok? {
          return;
        }
        var lc;
        r, lc := WebStatus();
      }
    }

    /**
     Reopens admission, or keeps it closed when the update found it closed. Success means telemt
     itself was seen to be in that state, unless admission was never closed.
     */
    method UpdateResume(plan: Plan, paused: bool) returns (r: Reply)
      requires Armed() && !trespass
      modifies this`admission, this`faults, this`trespass
      ensures !trespass
      ensures r.Ok? && plan.preserveClosed ==> !admission
      ensures r.Ok? && !plan.preserveClosed && paused ==> admission
      ensures !plan.preserveClosed && !paused ==> r.Ok? && admission == old(admission)
      ensures faults >= old(faults) && (r.Crash? ==> faults > old(faults)) && (r.Ok? && plan.preserveClosed ==> faults == old(faults))
      ensures !plan.preserveClosed && !plan.resume ==> admission == old(admission)
      ensures r.Ok? && (plan.preserveClosed || paused) ==> web
      ensures faults == old(faults) && (plan.preserveClosed || paused) ==>
                (r.Ok? <==> web && (plan.preserveClosed || plan.resume || admission))
    {
      var lc;
      if plan.preserveClosed {
        r := WebSwitch(false);
        if !r.Ok? {
          return;
        }
        r, lc := WebStatus();
        if r.Ok? && (lc.None? || lc.value.admissionOpen) {
          r := Err;
        }
        return;
      }
      if !paused {
        return Ok;
      }
      if plan.resume {
        var resumed := WebSwitch(true);
        if resumed.Crash? {
          return Crash;
        }
      }
      r, lc := WebStatus();
      if r.Ok? && (lc.None? || !lc.value.admissionOpen) {
        r := Err;
      }
    }

    /** The version the previous telemt is known by can be verified against what it reports. */
    ghost predicate Known(plan: Plan)
      reads this`baseBinary
    {
      plan.installed == "" || reading.same(baseBinary.reports, plan.installed)
    }

    /** Puts the kept files back and restarts telemt on them. */
    method PutKeptFilesBack(plan: Plan) returns (r: Reply)
      requires Armed() && !trespass
      requires binaryPrev == Some(baseBinary) && configPrev == Some(baseConfig)
      modifies this`binary, this`config, this`running, this`web, this`admission, this`faults, this`trespass
      ensures !trespass
      ensures r.Ok? ==>
                binary == Some(baseBinary) && config == baseConfig && running == Some(baseBinary.reports) && web == baseBinary.web
      ensures faults >= old(faults) && (r.Ok? ==> faults == old(faults))
      ensures faults == old(faults) ==> !r.Crash? && (r.Ok? <==> Known(plan))
    {
      r := InstallBinary(binaryPrev);
      if !r.Ok? {
        return;
      }
      r := InstallConfig(configPrev.value);
      if !r.Ok? {
        return;
      }
      r := RestartTelemt();
      if !r.Ok? {
        return;
      }
      if plan.installed != "" {
        r := VerifyTelemtVersion(plan.installed);
      }
    }

    /**
     Puts the previous telemt back and reports which state the node ended in. With no fault on the way it reports
     the node as rolled back exactly if the previous version can be verified, has a WEB runtime and admission can
     be brought back. On a node without a WEB runtime it never does, also when the previous telemt is back.
     */
    method RollbackTelemt(plan: Plan) returns (r: Reply)
      requires Armed() && !trespass
      requires plan.preserveClosed <==> (journal.j.hadWeb && !journal.j.admissionOpen)
      requires binaryPrev == Some(baseBinary) && configPrev == Some(baseConfig)
      modifies this`binary, this`config, this`running, this`web, this`admission
      modifies this`phase, this`outcome, this`faults, this`trespass
      ensures !trespass
      ensures !r.Err?
      ensures r.Ok? ==> phase == Finished && outcome in {Some(RolledBack), Some(RollbackFailed)}
      ensures r.Ok? && outcome == Some(RolledBack) ==> Restored(journal.j.hadWeb) && baseBinary.web
      ensures faults >= old(faults)
      ensures faults == old(faults) ==>
                r.Ok? && (outcome == Some(RolledBack) <==>
                            Known(plan) && baseBinary.web && (plan.preserveClosed || plan.resume || admission))
      ensures faults == old(faults) && Known(plan) ==>
                binary == Some(baseBinary) && config == baseConfig && running == Some(baseBinary.reports)
    {
      r := PutKeptFilesBack(plan);
      if r.Ok? {
        r := UpdateResume(plan, true);
      }
      match r
      case Crash =>
      case Ok => End(RolledBack);
      case Err =>
        End(RollbackFailed);
        r := Ok;
    }

    /** What an outcome promises about the node, given the staged binary and the version asked for. */
    ghost predicate Delivered(staged: Image, want: string, hadWeb: bool, paused: bool)
      reads this`binary, this`config, this`running, this`web, this`admission, this`outcome
      reads this`baseBinary, this`baseConfig, this`baseAdmission
    {
      match outcome
      case Some(Updated) =>
        && binary == Some(staged) && running == Some(staged.reports) && web == staged.web && reading.same(staged.reports, want)
        && config == baseConfig
        && (hadWeb && (paused || !baseAdmission) ==> admission == baseAdmission)
      case Some(AdmissionClosed) =>
        && binary == Some(staged) && running == Some(staged.reports) && web == staged.web && reading.same(staged.reports, want)
        && config == baseConfig
      case Some(RolledBack) => Restored(hadWeb) && baseBinary.web
      case Some(Failed) => config == baseConfig
      case Some(RollbackFailed) => true
      case _ => false
    }

    /** Reopens admission after a step that failed before the swap, and ends the run as failed. */
    method GiveUp(plan: Plan, paused: bool) returns (r: Reply)
      requires Armed() && !trespass
      modifies this`admission, this`phase, this`outcome, this`faults, this`trespass
      ensures !trespass
      ensures !r.Ok?
      ensures r.Err? ==> phase == Finished && outcome == Some(Failed)
      ensures faults >= old(faults) && (r.Crash? ==> faults > old(faults))
      ensures faults == old(faults) && web && paused && (plan.preserveClosed || plan.resume) ==>
                admission == !plan.preserveClosed
    {
      r := UpdateResume(plan, paused);
      if r.Crash? {
        return;
      }
      End(Failed);
      r := Err;
    }

    /** Pause and drain. An error has already ended the run as failed. */
    method CloseAdmission(plan: Plan, timeoutSecs: nat) returns (r: Reply)
      requires Armed() && !trespass
      modifies this`admission, this`drained, this`phase, this`outcome, this`faults, this`trespass
      ensures !trespass
      ensures r.Err? ==> phase == Finished && outcome == Some(Failed)
      ensures r.Ok? && plan.drain ==> drained
      ensures r.Ok? && (plan.pause || plan.drain) ==> !admission
      ensures faults >= old(faults)
      ensures faults == old(faults) && r.Err? ==> drained == old(drained)
      ensures faults == old(faults) ==> !r.Crash? && (r.Err? ==> plan.drain || (plan.pause && !web))
      ensures faults == old(faults) && r.Err? && web && (plan.preserveClosed || plan.resume) ==>
                admission == !plan.preserveClosed
    {
      r := UpdatePause(plan);
      if r.Crash? {
        return;
      }
      if r.Err? {
        End(Failed);
        return;
      }
      if plan.drain {
        var last;
        r, last := UpdateDrain(timeoutSecs);
        if r.Err? {
          r := GiveUp(plan, true);
        }
      }
    }

    /** The swap. An error has already ended the run as failed. */
    method ReplaceBinary(plan: Plan, paused: bool, staged: Image) returns (r: Reply)
      requires Armed() && !trespass && (paused ==> !admission)
      modifies this`binary, this`binaryPrev, this`configPrev, this`admission
      modifies this`phase, this`outcome, this`faults, this`trespass
      ensures !trespass
      ensures r.Err? ==> phase == Finished && outcome == Some(Failed)
      ensures r.Ok? ==> binary == Some(staged) && binaryPrev == old(binary) && configPrev == Some(config)
      ensures faults >= old(faults) && (faults == old(faults) ==> r.Ok?)
    {
      r := SwapTelemtBinary(staged);
      if r.Err? {
        r := GiveUp(plan, paused);
      }
    }

    /** Restart, verify and resume on the new binary, or roll back to the previous one. */
    method PutInService(plan: Plan, paused: bool, want: string, staged: Image) returns (r: Reply)
      requires Armed() && !trespass
      requires plan.preserveClosed <==> (journal.j.hadWeb && !journal.j.admissionOpen)
      requires binary == Some(staged) && config == baseConfig
      requires binaryPrev == Some(baseBinary) && configPrev == Some(baseConfig)
      modifies this`binary, this`config, this`binaryPrev, this`configPrev, this`running, this`web, this`admission
      modifies this`phase, this`outcome, this`faults, this`trespass
      ensures !trespass
      ensures !r.Err?
      ensures r.Ok? ==> phase == Finished && outcome != Some(Failed) && Delivered(staged, want, journal.j.hadWeb, paused)
      ensures faults >= old(faults)
      ensures faults == old(faults) && reading.same(staged.reports, want) && (plan.preserveClosed || plan.resume || !paused)
              && (plan.hadWeb || plan.preserveClosed || paused ==> staged.web) ==>
                outcome == Some(Updated)
      ensures faults == old(faults) ==> r.Ok?
      ensures r.Ok? && outcome == Some(Updated) ==> binaryPrev.None? && configPrev.None?
      ensures faults == old(faults) && !(reading.same(staged.reports, want) && (plan.hadWeb ==> staged.web)) ==>
                if Known(plan) && baseBinary.web && (plan.preserveClosed || plan.resume || admission) then outcome == Some(RolledBack)
                else outcome == Some(RollbackFailed)
    {
      r := UpdateRestartAndVerify(plan, want);
      if r.Crash? {
        return;
      }
      if r.Err? {
        r := RollbackTelemt(plan);
        return;
      }
      r := UpdateResume(plan, paused);
      if r.Crash? {
        return;
      }
      if r.Err? {
        End(AdmissionClosed);
        return Ok;
      }
      binaryPrev, configPrev := None, None;
      End(Updated);
      r := Ok;
    }

    /**
     Pause, drain, swap, verify and resume, or roll back; everything under the recorded intent. With no
     fault, a binary of the version asked for, with a WEB runtime where the node has one, and a way to resume,
     only a drain can keep it from updating.
     */
    method Maintain(plan: Plan, req: Request, staged: Image) returns (r: Reply)
      requires Armed() && !trespass
      requires plan.preserveClosed <==> (journal.j.hadWeb && !journal.j.admissionOpen)
      requires binary == Some(baseBinary) && config == baseConfig
      modifies this`binary, this`config, this`binaryPrev, this`configPrev, this`running, this`web, this`admission
      modifies this`phase, this`outcome, this`drained, this`faults, this`trespass
      ensures !trespass
      ensures !r.Err?
      ensures r.Ok? ==> phase == Finished && Delivered(staged, req.version, journal.j.hadWeb, plan.pause || plan.drain)
      ensures r.Ok? && outcome == Some(Failed) ==> running == old(running) && web == old(web)
      ensures r.Ok? && plan.drain && outcome != Some(Failed) ==> drained
      ensures faults >= old(faults) && (faults == old(faults) ==> r.Ok?)
      ensures faults == old(faults) && reading.same(staged.reports, req.version)
              && (plan.preserveClosed || plan.resume || !(plan.pause || plan.drain))
              && (plan.hadWeb || plan.preserveClosed || plan.pause || plan.drain ==> old(web) && staged.web) ==>
                outcome == Some(Updated) || (plan.drain && outcome == Some(Failed))
      ensures faults == old(faults) && outcome == Some(Failed) ==>
                binary == old(binary) && drained == old(drained) && (plan.drain || (plan.pause && !web))
      ensures faults == old(faults) && outcome == Some(Failed) && web && (plan.preserveClosed || plan.resume) ==>
                admission == !plan.preserveClosed
      ensures faults == old(faults) && outcome != Some(Failed) && !(reading.same(staged.reports, req.version) && (plan.hadWeb ==> staged.web)) ==>
                if Known(plan) && baseBinary.web && (plan.preserveClosed || plan.resume || admission) then outcome == Some(RolledBack)
                else outcome == Some(RollbackFailed)
    {
      var paused := plan.pause || plan.drain;
      r := CloseAdmission(plan, req.drainTimeoutSecs);
      if r.Ok? {
        r := ReplaceBinary(plan, paused, staged);
      }
      if r.Ok? {
        r := PutInService(plan, paused, req.version, staged);
      }
      if r.Err? {
        r := Ok;
      }
    }

    /**
     Whether a finished update leaves nothing for recovery to undo. A run that failed is settled only
     over the saved binary, verified by its sum, and, on a WEB node, the recorded admission.
     */
    method UpdateSettled(j: Journal, result: Outcome) returns (r: Reply, settled: bool)
      modifies this`faults
      ensures !r.Err?
      ensures settled ==> !result.Refused? && !result.RollbackFailed?
      ensures settled && result.Failed? ==> binary.Some? && Sha256(binary.value) == j.binarySum
      ensures settled && result.Failed? && j.hadWeb ==> admission == j.admissionOpen
      ensures result in {Updated, RolledBack, AdmissionClosed} ==> r.Ok? && settled
      ensures faults >= old(faults)
      ensures faults == old(faults) ==>
                r.Ok? && (settled <==>
                            || result in {Updated, RolledBack, AdmissionClosed}
                            || (&& result.Failed? && binary.Some? && Sha256(binary.value) == j.binarySum
                                && (j.hadWeb ==> web && admission == j.admissionOpen)))
    {
      match result
      case Updated => return Ok, true;
      case RolledBack => return Ok, true;
      case AdmissionClosed => return Ok, true;
      case Failed =>
        r := Attempt();
        if r.Crash? {
          return r, false;
        }
        if r.Err? || binary.None? || Sha256(binary.value) != j.binarySum {
          return Ok, false;
        }
        if !j.hadWeb {
          return Ok, true;
        }
        var lc;
        r, lc := WebStatus();
        if r.Crash? {
          return r, false;
        }
        settled := r.Ok? && lc.Some? && lc.value.admissionOpen == j.admissionOpen;
        r := Ok;
      case Refused => return Ok, false;
      case RollbackFailed => return Ok, false;
    }

    /**
     Preflight, download and the intent. An error has already ended the run as refused, with the node
     as it was; success leaves it armed.
     */
    method Begin(req: Request, caps: Capabilities) returns (r: Reply, plan: Plan, j: Journal)
      requires Valid() && !ActiveIntent()
      modifies this`goodBinary, this`goodConfig, this`journal, this`slipped, this`faults
      modifies this`baseBinary, this`baseConfig, this`baseAdmission, this`phase, this`outcome
      ensures Valid()
      ensures r.Err? ==> phase == Finished && outcome == Some(Refused)
      ensures r.Ok? ==>
                && Armed() && journal == Stored(j) && j.hadWeb == caps.webRuntime
                && plan == Plan(caps.webRuntime && !admission, reading.recorded(baseBinary.reports),
                                caps.webDrain, caps.webPause, caps.webResume, caps.webRuntime)
                && (plan.preserveClosed <==> (j.hadWeb && !j.admissionOpen))
      ensures ActiveIntent() ==> binary == Some(baseBinary) && config == baseConfig && admission == baseAdmission
      ensures journal == old(journal) || ActiveIntent()
      ensures !r.Ok? ==> (ActiveIntent() <==> slipped)
      ensures old(journal).Unreadable? ==> !r.Ok? && journal == old(journal)
      ensures r.Ok? ==> Feasible(req, caps) && phase == old(phase) && outcome == old(outcome)
      ensures faults >= old(faults) && (r.Ok? ==> faults == old(faults))
      ensures faults == old(faults) ==>
                !r.Crash? && (r.Ok? <==> Feasible(req, caps) && !old(journal).Unreadable? && (caps.webRuntime ==> web))
    {
      hide Feasible, Recoverable;
      j := Journal(None, req.version, false, "", true, Sha256(Image("", false, 0)), Sha256(""), false, false);
      slipped := false;
      r, plan := UpdatePreflight(req, caps);
      if r.Ok? {
        r := Attempt();  // download, checksum and unpack
      }
      if r.Ok? {
        r, j := PrepareUpdateJournal(plan, req.version);
        plan := plan.(preserveClosed := j.hadWeb && !j.admissionOpen);
      }
      if r.Err? {
        End(Refused);
      }
    }

    /** Closes the intent when the outcome is settled. */
    method CloseIfSettled(j: Journal) returns (r: Reply)
      requires outcome.Some?
      modifies this`journal, this`slipped, this`faults
      ensures !r.Err?
      ensures journal == old(journal) || journal == Stored(j.(active := false, outcome := outcome))
      ensures journal != old(journal) ==> !outcome.value.Refused? && !outcome.value.RollbackFailed?
      ensures journal != old(journal) && outcome == Some(Failed) ==>
                && binary.Some? && Sha256(binary.value) == j.binarySum
                && (j.hadWeb ==> admission == j.admissionOpen)
      ensures faults >= old(faults)
      ensures faults == old(faults) && outcome.value in {Updated, RolledBack, AdmissionClosed} ==> !ActiveIntent()
      ensures (&& faults == old(faults) && outcome.value.Failed? && binary.Some? && Sha256(binary.value) == j.binarySum
               && (j.hadWeb ==> web && admission == j.admissionOpen)) ==> !ActiveIntent()
      ensures faults == old(faults) ==> r.Ok?
    {
      var settled;
      r, settled := UpdateSettled(j, outcome.value);
      if r.Ok? && settled {
        r := WriteJournal(j.(active := false, outcome := outcome));
        if r.Err? {
          r := Ok;
        }
      }
    }

    /** The node has what the plan asks of it, and admission can be brought back. */
    ghost predicate Equipped(plan: Plan, web0: bool) {
      && (plan.hadWeb || plan.pause || plan.drain ==> web0)
      && (plan.pause || plan.drain ==> plan.preserveClosed || plan.resume)
    }

    /** How an update ends when nothing fails: as updated, or rolled back where the new binary is no good, or failed in the drain. */
    ghost predicate Ended(plan: Plan, req: Request, staged: Image)
      reads this`outcome, this`admission, this`baseBinary
    {
      || (plan.drain && outcome == Some(Failed))
      || if reading.same(staged.reports, req.version) && (plan.hadWeb ==> staged.web) then
           staged.web || !(plan.pause || plan.drain) ==> outcome == Some(Updated)
         else if Known(plan) && baseBinary.web && (plan.preserveClosed || plan.resume || admission) then outcome == Some(RolledBack)
         else outcome == Some(RollbackFailed)
    }

    /** The update under its intent, and the end of the intent. */
    method CarryOut(plan: Plan, req: Request, j: Journal, staged: Image) returns (r: Reply)
      requires Valid() && ActiveIntent() && journal == Stored(j) && plan.hadWeb == j.hadWeb
      requires plan.preserveClosed <==> (j.hadWeb && !j.admissionOpen)
      requires binary == Some(baseBinary) && config == baseConfig && admission == baseAdmission
      requires running.Some? ==> running.value == baseBinary.reports && web == baseBinary.web
      modifies this`binary, this`config, this`binaryPrev, this`configPrev, this`running, this`web, this`admission
      modifies this`journal, this`slipped, this`phase, this`outcome, this`drained, this`faults, this`trespass
      ensures Valid()
      ensures !r.Err?
      ensures r.Ok? ==> phase == Finished && outcome.Some? && outcome != Some(Refused)
      ensures !ActiveIntent() ==>
                && journal.Stored? && journal.j.outcome == outcome && journal.j.hadWeb == j.hadWeb
                && outcome in {Some(Updated), Some(AdmissionClosed), Some(RolledBack), Some(Failed)}
                && Delivered(staged, req.version, j.hadWeb, plan.pause || plan.drain)
                && (outcome == Some(Failed) ==>
                      binary == Some(baseBinary) && config == baseConfig && (j.hadWeb ==> admission == baseAdmission))
      ensures r.Ok? && outcome == Some(RolledBack) ==> baseBinary.web
      ensures r.Ok? && outcome == Some(RollbackFailed) ==> ActiveIntent()
      ensures faults >= old(faults) && (faults == old(faults) ==> r.Ok? && (outcome == Some(Failed) ==> drained == old(drained)))
      ensures faults == old(faults) && Equipped(plan, old(web)) ==>
                Ended(plan, req, staged) && (outcome == Some(RollbackFailed) || !ActiveIntent())
    {
      hide Known;
      r := Maintain(plan, req, staged);
      if r.Ok? {
        r := CloseIfSettled(j);
      }
    }

    /**
     One whole update. Whatever happens, and wherever it is interrupted, the node stays valid. A run refused did
     not touch the node, and leaves an active journal exactly if the write of it reported an error and took effect.
     The intent is closed only over a node the outcome describes, and it is still active after a failed rollback.
     */
    method RunTelemtUpdate(req: Request, caps: Capabilities, staged: Image) returns (r: Reply)
      requires Valid() && !ActiveIntent()
      modifies this
      ensures Valid()
      ensures !r.Err?
      ensures r.Ok? ==> phase == Finished && outcome.Some?
      ensures r.Ok? && outcome == Some(Refused) ==> Untouched() && (ActiveIntent() <==> slipped)
      ensures r.Ok? && outcome == Some(Refused) && journal != old(journal) ==>
                ActiveIntent() && binary == Some(baseBinary) && config == baseConfig && admission == baseAdmission
      ensures (journal != old(journal) || (r.Ok? && outcome != Some(Refused))) && !ActiveIntent() ==>
                && journal.Stored? && journal.j.outcome == outcome && journal.j.hadWeb == caps.webRuntime
                && Some(baseBinary) == old(binary) && baseConfig == old(config) && baseAdmission == old(admission)
                && outcome in {Some(Updated), Some(AdmissionClosed), Some(RolledBack), Some(Failed)}
                && Delivered(staged, req.version, caps.webRuntime, caps.webPause || caps.webDrain)
                && (outcome == Some(Failed) ==>
                      binary == old(binary) && config == old(config)
                      && (caps.webRuntime ==> admission == old(admission)))
      ensures r.Ok? && outcome == Some(RolledBack) ==> old(binary).Some? && old(binary).value.web
      ensures r.Ok? && outcome == Some(RollbackFailed) ==> ActiveIntent()
      ensures old(journal).Unreadable? ==> journal == old(journal) && Untouched()
      // When nothing fails the run is refused exactly where the request, the node or the journal is in the way.
      ensures faults >= old(faults)
      ensures faults == old(faults) ==>
                r.Ok? && (outcome != Some(Refused) <==> old(Feasible(req, caps)) && !old(journal).Unreadable? && (caps.webRuntime ==> old(web)))
      // A good binary then ends updated, with the journal closed, and only a drain can fail it.
      ensures (&& faults == old(faults) && outcome != Some(Refused) && reading.same(staged.reports, req.version)
               && (caps.webRuntime || caps.webPause || caps.webDrain ==> old(web) && staged.web)
               && (caps.webPause || caps.webDrain ==> caps.webResume || (caps.webRuntime && !old(admission)))) ==>
                (outcome == Some(Updated) || (caps.webDrain && outcome == Some(Failed) && !drained)) && !ActiveIntent()
      // A binary of another version, or without the WEB runtime of the node, is rolled back as far as it can be.
      ensures (&& faults == old(faults) && outcome != Some(Refused) && outcome != Some(Failed)
               && !(reading.same(staged.reports, req.version) && (caps.webRuntime ==> staged.web))
               && (caps.webRuntime || caps.webPause || caps.webDrain ==> old(web))
               && (caps.webPause || caps.webDrain ==> caps.webResume || (caps.webRuntime && !old(admission)))) ==>
                && outcome in {Some(RolledBack), Some(RollbackFailed)}
                && (outcome == Some(RolledBack) <==>
                      && (var v := reading.recorded(baseBinary.reports); v == "" || reading.same(baseBinary.reports, v))
                      && baseBinary.web && (caps.webResume || (caps.webRuntime && !old(admission)) || admission))
    {
      hide Recoverable, Delivered;
      phase, outcome, drained := Running, None, false;
      var plan, j;
      r, plan, j := Begin(req, caps);
      if r.Err? {
        return Ok;
      }
      if r.Ok? {
        r := CarryOut(plan, req, j, staged);
      }
    }

    // ---- everything that reaches the node -----------------------------------------------

    /** The version recorded for the base can be verified against what the base reports. */
    ghost predicate Verifiable()
      reads this`baseBinary
    {
      reading.same(baseBinary.reports, reading.recorded(baseBinary.reports))
    }

    /** An intent that is still active has kept its journal, its copies and its base. */
    twostate predicate IntentKept()
      reads this
    {
      old(ActiveIntent()) ==>
        && goodBinary == old(goodBinary) && goodConfig == old(goodConfig)
        && baseBinary == old(baseBinary) && baseConfig == old(baseConfig) && baseAdmission == old(baseAdmission)
        && (ActiveIntent() ==> journal == old(journal))
    }

    /** A request for an update; refused, with nothing overwritten, while an intent is active. */
    method StartTelemtUpdate(req: Request, caps: Capabilities, staged: Image) returns (r: Reply)
      requires Valid()
      modifies this
      ensures Valid() && IntentKept()
      ensures old(ActiveIntent()) ==> !r.Ok? && Untouched() && journal == old(journal)
    {
      r := CheckUpdateJournal();
      if r.Ok? {
        r := RunTelemtUpdate(req, caps, staged);
      }
    }

    /** An operator closes or opens WEB admission. */
    method WebControl(open: bool) returns (r: Reply)
      requires Valid()
      modifies this`admission, this`faults
      ensures Valid() && IntentKept()
      ensures old(ActiveIntent()) ==> !r.Ok? && Untouched()
    {
      r := CheckUpdateJournal();
      if r.Ok? {
        var applied;
        r, applied := AttemptEffect();
        if applied {
          admission := open;
        }
      }
    }

    /** An apply changes the config, restarting telemt or not. */
    method Apply(text: string) returns (r: Reply)
      requires Valid()
      modifies this`config, this`running, this`web, this`admission, this`faults
      ensures Valid() && IntentKept()
      ensures old(ActiveIntent()) ==> !r.Ok? && Untouched()
    {
      r := CheckUpdateJournal();
      if r.Ok? {
        var applied;
        r, applied := AttemptEffect();
        if applied {
          config := text;
        }
        var bounced := *;
        if bounced {
          Bounce();
        }
      }
    }

    /** telemt comes up again on the binary on disk, or does not come up. */
    method Bounce()
      modifies this`running, this`web, this`admission
      ensures running.Some? ==> binary.Some? && running.value == binary.value.reports && web == binary.value.web
    {
      admission := *;
      var up := *;
      if up && binary.Some? {
        running, web := Some(binary.value.reports), binary.value.web;
      } else {
        running := None;
      }
    }

    /** A restart of the relay, which does not ask the journal. */
    method RestartRelay() returns (r: Reply)
      requires Valid()
      modifies this`running, this`web, this`admission, this`faults
      ensures Valid() && IntentKept()
    {
      r := Attempt();
      var bounced := *;
      if bounced {
        Bounce();
      }
    }

    /**
     The agent starts, alone or with the whole machine, remembering nothing but its files. Recovery
     with no fault on the way closes an intent exactly when its base can be verified again.
     */
    method StartUp(reboot: bool) returns (r: Reply)
      requires Valid()
      modifies this`binary, this`config, this`running, this`web, this`admission, this`journal, this`slipped
      modifies this`phase, this`outcome, this`drained, this`faults, this`trespass
      ensures Valid() && IntentKept()
      ensures old(ActiveIntent()) && !ActiveIntent() ==> Verifiable() && Restored(old(journal).j.hadWeb)
      ensures old(ActiveIntent()) && faults == old(faults) ==>
                (!ActiveIntent() <==> Verifiable())
    {
      phase, outcome, drained := Idle, None, false;
      if reboot {
        Bounce();
      }
      r := RecoverUpdate();
    }

    /**
     Any sequence of events; once the agent died, only its start counts. An intent whose base cannot
     be verified again stays active whatever happens.
     */
    method Live(events: seq<Event>)
      requires Valid()
      modifies this
      ensures Valid()
      ensures old(ActiveIntent() && !Verifiable()) ==> journal == old(journal)
    {
      var dead := false;
      for i := 0 to |events|
        invariant Valid()
        invariant old(ActiveIntent() && !Verifiable()) ==> journal == old(journal) && !Verifiable()
      {
        var r := Ok;
        match events[i]
        case StartUp(reboot) => r := StartUp(reboot); dead := false;
        case Update(req, caps, staged) => if !dead { r := StartTelemtUpdate(req, caps, staged); }
        case Control(open) => if !dead { r := WebControl(open); }
        case Configure(text) => if !dead { r := Apply(text); }
        case Relay => if !dead { r := RestartRelay(); }
        dead := dead || r.Crash?;
      }
    }

    /**
     The recovery theorem: after any run, however often and wherever it was interrupted, a start-up
     with no fault finds a way back for every active intent, unless the base reports its version in a
     form that is not just the version.
     */
    method LiveThenRecover(events: seq<Event>, reboot: bool) returns (ghost interrupted: bool, ghost clean: bool, ghost hadWeb: bool)
      requires Valid() && reading == AGENT_READING
      modifies this
      ensures Valid()
      ensures interrupted && clean ==>
                (!ActiveIntent() <==>
                  && NormalizeVersion(baseBinary.reports) != ""
                  && (ParseVersionOutput(baseBinary.reports) == ""
                      || EqualFold(NormalizeVersion(baseBinary.reports), ParseVersionOutput(baseBinary.reports))))
      ensures interrupted && !ActiveIntent() ==> Restored(hadWeb)
    {
      Live(events);
      interrupted, hadWeb := ActiveIntent(), journal.Stored? && journal.j.hadWeb;
      ghost var before := faults;
      var _ := StartUp(reboot);
      clean := faults == before;
      RecordedIsVerifiable(baseBinary.reports);
    }
  }
}
