/** The closures of the plugin's server setup as they are written: shared variables that each callback updates. */
module PluginSetup {
  import opened Wrappers
  import opened PluginRecovery
  import PluginOutcomes

  class ServerSetup {
    const domains: seq<Hostname>
    var owned: set<Hostname>
    var clients: seq<Status>
    var client: Option<ClientId>
    var setup: Setup
    var promise: Option<LoopId>
    var loops: map<LoopId, Loop>
    var nextLoop: LoopId
    var shuttingDown: bool
    var log: seq<Entry>

    ghost function State(): Plugin
      reads this
    {
      Plugin(domains, owned, clients, client, setup, promise, loops, nextLoop, shuttingDown, log)
    }

    constructor (domains: seq<Hostname>)
      ensures State() == Initial(domains) && Inv(State())
    {
      this.domains := domains;
      owned, clients, client, setup := set h | h in domains, [], None, NotStarted;
      promise, loops, nextLoop, shuttingDown, log := None, map[], 0, false, [];
    }

    method OwnedRoutes() returns (hs: seq<Hostname>)
      ensures hs == Filtered(domains, owned)
    {
      hs := [];
      var i := 0;
      assert domains[0..] == domains;
      while i < |domains|
        invariant 0 <= i <= |domains|
        invariant hs + Filtered(domains[i..], owned) == Filtered(domains, owned)
      {
        assert domains[i..][1..] == domains[i + 1..];
        if domains[i] in owned {
          hs := hs + [domains[i]];
        }
        i := i + 1;
      }
    }

    method SetStatus(c: ClientId, s: Status)
      modifies this`clients
      ensures State() == Mark(old(State()), c, s)
    {
      if c < |clients| {
        clients := clients[c := s];
      }
    }

    method CleanUp()
      modifies this
      ensures State() == Cleanup(old(State()))
    {
      if shuttingDown {
        return;
      }
      shuttingDown := true;
      var active := client;
      client := None;
      if active.Some? && active.value < |clients| && clients[active.value].Open? {
        SetStatus(active.value, Closing);
      }
    }

    method FinishLoop(l: LoopId)
      modifies this
      ensures State() == EndLoop(old(State()), l)
    {
      loops := loops - {l};
      promise := None;
    }

    method EnterLoop(l: LoopId)
      modifies this
      ensures State() == LoopHead(old(State()), l)
    {
      var active := OwnedRoutes();
      if shuttingDown || active == [] {
        FinishLoop(l);
      } else {
        loops := loops[l := LoopInfra];
      }
    }

    method Recover()
      modifies this
      ensures State() == RecoverRoutes(old(State()))
    {
      if promise.Some? || shuttingDown {
        return;
      }
      var l := nextLoop;
      nextLoop := nextLoop + 1;
      promise := Some(l);
      loops := loops[l := LoopWait];
      EnterLoop(l);
    }

    method RetryOrStop(l: LoopId, last: bool)
      modifies this
      ensures State() == LoopClosed(old(State()), l, last)
    {
      if last || shuttingDown {
        FinishLoop(l);
      } else {
        loops := loops[l := LoopWait];
      }
    }

    method DropCandidate(l: LoopId, c: ClientId, last: bool)
      modifies this
      ensures State() == CloseCandidate(old(State()), l, c, last)
    {
      if c < |clients| && clients[c].Open? {
        SetStatus(c, Closing);
        loops := loops[l := LoopClose(c, last)];
      } else {
        RetryOrStop(l, last);
      }
    }

    method GiveUpSetup(updateRequired: bool)
      modifies this
      ensures State() == SetupFailed(old(State()), updateRequired)
    {
      setup := SetupDone;
      if updateRequired {
        Recover();
      } else {
        CleanUp();
      }
    }

    method FailSetup(updateRequired: bool)
      modifies this
      ensures State() == SetupFail(old(State()), updateRequired)
    {
      if shuttingDown {
        setup := SetupDone;
        return;
      }
      var failed := client;
      client := None;
      if failed.Some? && failed.value < |clients| && clients[failed.value].Open? {
        SetStatus(failed.value, Closing);
        setup := SetupClose(failed.value, updateRequired);
      } else {
        GiveUpSetup(updateRequired);
      }
    }

    method NewClient() returns (c: ClientId)
      modifies this`clients
      ensures c == |old(clients)| && clients == old(clients) + [Fresh]
    {
      c := |clients|;
      clients := clients + [Fresh];
    }

    method OpenAndRegister(c: ClientId, hs: seq<Hostname>)
      modifies this`clients, this`log
      ensures State() == Mark(old(State()), c, Open).(log := old(log) + [Called(hs)])
    {
      SetStatus(c, Open);
      log := log + [Called(hs)];
    }

    method OnSetup(e: Event)
      modifies this
      ensures State() == SetupStep(old(State()), e)
    {
      match e {
        case Listening =>
          if setup.NotStarted? {
            setup := SetupInfra;
          }
        case SetupInfraDone(ok, update) =>
          if setup.SetupInfra? {
            if !ok {
              FailSetup(update);
            } else if shuttingDown {
              setup := SetupDone;
            } else {
              var c := NewClient();
              client := Some(c);
              setup := SetupConnect(c);
            }
          }
        case SetupConnected(ok) =>
          if setup.SetupConnect? {
            var c := setup.c;
            if !ok {
              SetStatus(c, Dead);
              FailSetup(false);
            } else {
              OpenAndRegister(c, domains);
              setup := SetupRegister(c);
            }
          }
        case SetupReplied(answer) =>
          if setup.SetupRegister? {
            setup := SetupAnswered(setup.c, answer);
          }
        case SetupResumed =>
          if setup.SetupAnswered? {
            if setup.answer.Refused? {
              FailSetup(setup.answer.updateRequired);
            } else {
              setup := SetupDone;
            }
          }
        case _ =>
      }
    }

    method OnLoop(e: Event)
      modifies this
      ensures State() == LoopStep(old(State()), e)
    {
      match e {
        case LoopInfraDone(l, ok) =>
          if l in loops && loops[l].LoopInfra? {
            if !ok {
              RetryOrStop(l, false);
            } else {
              var hs := OwnedRoutes();
              if hs == [] {
                FinishLoop(l);
              } else {
                var c := NewClient();
                loops := loops[l := LoopConnect(c, hs)];
              }
            }
          }
        case LoopConnected(l, ok) =>
          if l in loops && loops[l].LoopConnect? {
            var c, hs := loops[l].candidate, loops[l].hostnames;
            if !ok {
              SetStatus(c, Dead);
              RetryOrStop(l, false);
            } else {
              OpenAndRegister(c, hs);
              loops := loops[l := LoopRegister(c)];
            }
          }
        case LoopReplied(l, ok) =>
          if l in loops && loops[l].LoopRegister? {
            loops := loops[l := LoopAnswered(loops[l].candidate, ok)];
          }
        case LoopResumed(l) =>
          if l in loops && loops[l].LoopAnswered? {
            var c, accepted := loops[l].candidate, loops[l].accepted;
            if !accepted {
              DropCandidate(l, c, false);
            } else if shuttingDown {
              DropCandidate(l, c, true);
            } else {
              client := Some(c);
              FinishLoop(l);
            }
          }
        case LoopWaited(l) =>
          if l in loops && loops[l].LoopWait? {
            EnterLoop(l);
          }
        case _ =>
      }
    }

    /** A route-lost frame, or the hostnames a heartbeat reply did not confirm. */
    method OnLost(c: ClientId, hs: seq<Hostname>)
      modifies this`owned, this`log
      ensures State() == React(old(State()), Learned(c, hs))
    {
      var recovering := promise.Some? && promise.value in loops
                        && (loops[promise.value].LoopInfra? || loops[promise.value].LoopAnswered?);
      if c < |clients| && (clients[c].Open? || clients[c].Closing? || (clients[c].Dead? && recovering)) {
        var i := 0;
        while i < |hs|
          modifies this`owned
          invariant 0 <= i <= |hs|
          invariant owned == old(owned) - SetOf(hs[..i])
        {
          assert hs[..i + 1] == hs[..i] + [hs[i]];
          owned := owned - {hs[i]};
          i := i + 1;
        }
        assert hs[..i] == hs;
        log := log + Losses(hs);
      }
    }

    method RejectPending(c: ClientId)
      modifies this
      ensures State() == Refuse(old(State()), c)
    {
      if setup == SetupRegister(c) {
        setup := SetupAnswered(c, Refused(false));
      } else if promise.Some? && promise.value in loops && loops[promise.value] == LoopRegister(c) {
        loops := loops[promise.value := LoopAnswered(c, false)];
      }
    }

    method OnDisconnect(c: ClientId)
      modifies this
      ensures State() == React(old(State()), Disconnected(c))
    {
      if c < |clients| && clients[c].Open? {
        SetStatus(c, Dead);
        RejectPending(c);
        Recover();
      }
    }

    /** `close` finished: the setup or the loop that waited for it goes on. */
    method OnClosed(c: ClientId)
      modifies this
      ensures State() == React(old(State()), Closed(c))
    {
      if c >= |clients| || !clients[c].Closing? {
        return;
      }
      SetStatus(c, Dead);
      if setup.SetupClose? && setup.c == c {
        GiveUpSetup(setup.updateRequired);
      } else if promise.Some? && promise.value in loops
                && loops[promise.value].LoopClose? && loops[promise.value].candidate == c {
        RetryOrStop(promise.value, loops[promise.value].last);
      } else {
        RejectPending(c);
      }
    }

    /**
     * One callback or continuation. Whatever it is, at most one recovery runs afterwards, no registration that was
     * sent names a hostname learned to be lost before, and one that it sends names everything that is still owned.
     */
    method Handle(e: Event)
      requires Inv(State())
      requires Due(State()).None? || SameTurn(e, Due(State()).value)
      modifies this
      ensures State() == Step(old(State()), e) && Inv(State())
      ensures |loops| <= 1
      ensures forall i, j :: 0 <= i < j < |log| && log[i].Lost? && log[j].Called? ==> log[i].hostname !in log[j].hostnames
      ensures forall hs :: log == old(log) + [Called(hs)] ==> PluginOutcomes.Names(hs, domains, old(owned))
    {
      ghost var before := State();
      if e.Learned? {
        OnLost(e.c, e.lost);
      } else if e.Disconnected? {
        OnDisconnect(e.c);
      } else if e.Closed? {
        OnClosed(e.c);
      } else if e.Shutdown? {
        CleanUp();
      } else if e.Listening? || e.SetupInfraDone? || e.SetupConnected? || e.SetupReplied? || e.SetupResumed? {
        OnSetup(e);
      } else {
        OnLoop(e);
      }
      assert State() == React(before, e);
      StepKeepsInv(before, e);
      forall hs | log == old(log) + [Called(hs)] ensures PluginOutcomes.Names(hs, domains, old(owned)) {
        PluginOutcomes.SentNamesTheOwned(before, e, hs);
      }
      assert |loops| == |loops.Keys|;
    }
  }
}
