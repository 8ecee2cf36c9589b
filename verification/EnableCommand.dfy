/** The enable command as main runs it (main/main.go): the pre-check, and then the command itself. */
module EnableCommand {
  import opened Settings
  import opened Timeline
  import T = Takeover
  import Pre = EnablePre
  import E = EnableLoop

  /** What main makes of the outcome of enablePre. */
  function PreCheckOf(outcome: Pre.Outcome): E.PreCheck {
    match outcome
    case Passed => E.PreOk
    case ExitIdempotent => E.PreIdempotent
    case _ => E.PreFailed
  }

  /** A process writes status exactly if enablePre has passed, and then its number is recorded; one
      that is turned away leaves the register, the other processes and the status file alone. */
  method RunCommand(host: Pre.Host, seqNum: nat, readOk: bool, discovered: Option<seq<T.Pid>>, log: T.LogAge,
                    saveOk: bool, s: PublicSettings, its: seq<Iteration>)
    returns (exitCode: Option<int>, writes: seq<E.StatusWrite>)
    modifies host
    ensures readOk ==>
              var (pc, effects) := Pre.Course(Pre.Decider(seqNum, old(host.Recorded()), discovered), 0, log, saveOk);
              && host.effects == old(host.effects) + effects
              && (writes != [] <==> pc == T.Admitted)
              && (pc == T.Gone(T.Idempotent) ==> exitCode == Some(0))
              && (pc.Gone? && pc != T.Gone(T.Idempotent) ==> exitCode == Some(E.ENABLE_FAIL_EXIT_CODE))
    ensures !readOk ==> writes == [] && exitCode == Some(E.ENABLE_FAIL_EXIT_CODE) && host.effects == old(host.effects)
    ensures host.recorded == if writes != [] then Some(seqNum) else old(host.recorded)
    ensures writes != [] ==> E.LifecycleWrites(seqNum, writes, exitCode == Some(E.ENABLE_FAIL_EXIT_CODE))
    ensures writes != [] && s.ParseAndValidate() != None ==>
              exitCode == Some(E.ENABLE_FAIL_EXIT_CODE) && |writes| == 2
    ensures writes != [] && s.ParseAndValidate() == None ==>
              var failed := exitCode == Some(E.ENABLE_FAIL_EXIT_CODE);
              E.LoopWritesAre(seqNum, s, its, exitCode, if failed then writes[1..|writes| - 1] else writes[1..])
  {
    var outcome := host.Run(seqNum, readOk, discovered, log, saveOk);
    exitCode, writes := E.RunEnableProcess(PreCheckOf(outcome), seqNum, s, its);
  }
}
