/** The service that owns the server process: one restart, step by step. */
module RestartService {
  import opened Options
  import opened Restart

  datatype Status = Validated | Applied | Failed

  /** A server process, made for one configuration. */
  class Process {
    const config: Config
    var running: bool

    constructor (config: Config)
      ensures this.config == config && !running
    {
      this.config := config;
      running := false;
    }

    method Start(comesUp: bool) returns (ok: bool)
      modifies this
      ensures ok == (!old(running) && comesUp) && running == (old(running) || comesUp)
    {
      if running {
        return false;
      }
      running := comesUp;
      ok := comesUp;
    }

    method Stop()
      modifies this
      ensures !running
    {
      running := false;
    }
  }

  class XrayService {
    var process: Process?
    var result: string
    var needRestart: bool
    var history: seq<Status>

    function Running(): Option<Config>
      reads this, process
    {
      if process == null || !process.running then None else Some(process.config)
    }

    method SetToNeedRestart()
      modifies this`needRestart
      ensures needRestart
    {
      needRestart := true;
    }

    method IsNeedRestartAndSetFalse() returns (claimed: bool)
      modifies this`needRestart
      ensures claimed == old(needRestart) && !needRestart
    {
      claimed := needRestart;
      needRestart := false;
    }

    method UpdateMergeHistory(recorded: bool, status: Status)
      modifies this`history
      ensures history == old(history) + if recorded then [status] else []
    {
      if recorded {
        history := history + [status];
      }
    }

    /** `config` is what is built from the database, if that succeeds; `recorded`: it has a history entry. */
    method RestartXray(isForce: bool, config: Config, o: Outcome, recorded: bool) returns (failed: bool)
      modifies this`process, this`result, this`history, process
      ensures Running() == RunningAfter(old(Running()), config, isForce, o)
      ensures !failed <==> o.builds && o.valid && (o.starts || (old(Running()) == Some(config) && !isForce))
      ensures !failed ==> Running() == Some(config)
      ensures failed ==> Running() == if o.builds && o.valid && !o.rollsBack then None else old(Running())
      ensures history == old(history) + if !recorded || !o.builds then []
                                        else if !o.valid then [Failed]
                                        else [Validated, if failed then Failed else Applied]
      ensures if Replaces(old(Running()), config, isForce, o)
              then fresh(process) && result == "" && (old(process) != null ==> !old(process).running)
              else process == old(process) && result == old(result)
                   && (process != null ==> process.running == old(process.running))
    {
      if !o.builds {
        return true;
      }
      if !o.valid {
        UpdateMergeHistory(recorded, Failed);
        return true;
      }
      UpdateMergeHistory(recorded, Validated);
      var oldConfig: Option<Config> := None;
      if process != null && process.running {
        if !isForce && process.config == config {
          UpdateMergeHistory(recorded, Applied);
          return false;
        }
        oldConfig := Some(process.config);
        process.Stop();
      }
      process := new Process(config);
      result := "";
      var ok := process.Start(o.starts);
      if ok {
        UpdateMergeHistory(recorded, Applied);
        return false;
      }
      UpdateMergeHistory(recorded, Failed);
      if oldConfig.Some? {
        var rollbackProcess := new Process(oldConfig.value);
        var rolledBack := rollbackProcess.Start(o.rollsBack);
        if rolledBack {
          process := rollbackProcess;
          return true;
        }
      }
      return true;
    }

    /** The job that looks at the flag now and then. */
    method RestartIfNeeded(config: Config, o: Outcome, recorded: bool)
      modifies this, process
      ensures !needRestart
      ensures Running() == if old(needRestart) then RunningAfter(old(Running()), config, false, o) else old(Running())
    {
      var claimed := IsNeedRestartAndSetFalse();
      if claimed {
        var _ := RestartXray(false, config, o, recorded);
      }
    }
  }
}
