/**
 * The process supervisor: `ProcessManager` of packages/core/src/process.ts.  A child process is
 * abstract (what it was launched with, and its pid if the OS gave one); the events the manager
 * emits and the kill requests it issues are recorded in order.
 */
module ProcessSupervisor {
  import opened Wrappers
  import opened Text

  /** An environment block: variable name to value. */
  type Env = map<string, string>

  datatype Stream = Stdout | Stderr

  /**
   * A launched child: `id` is the id it was started under, and its listeners report with it;
   * `serial` tells apart two children started under the same id.
   */
  datatype Child = Child(serial: nat, id: string, command: string, args: seq<string>, cwd: string, env: Env, pid: Option<int>)

  /** What the manager emits: `output {id, type, data}` and `exit {id, code}` (a null code is `None`). */
  datatype Event = Output(id: string, stream: Stream, data: string) | Exit(id: string, code: Option<int>)

  /** `tree-kill` of the whole tree with a signal, or `subprocess.kill()` of the child alone. */
  datatype KillRequest = TreeKill(pid: int, signal: string) | DirectKill(serial: nat)

  const BunCacheSuffix: string := "\\.bun\\install\\cache"

  function Lookup(env: Env, key: string): Option<string> {
    if key in env then Some(env[key]) else None
  }

  /** JavaScript's `a || b` on `string | undefined`. */
  function Or(a: Option<string>, b: Option<string>): Option<string> {
    if Truthy(a) then a else b
  }

  /** A property of the object literal; the launcher drops a variable whose value is `undefined`. */
  function Put(env: Env, key: string, value: Option<string>): Env {
    if value.Some? then env[key := value.value] else env - {key}
  }

  predicate Overridden(key: string) {
    key in {"HOME", "BUN_INSTALL_CACHE_DIR", "APPDATA", "LOCALAPPDATA", "PATH"}
  }

  /** The environment `start` launches with: the ambient one plus toolchain fallbacks. */
  function BuildEnv(ambient: Env): Env {
    var profile := Lookup(ambient, "USERPROFILE");
    var home := Or(Lookup(ambient, "HOME"), profile);
    var bunCache := Or(Lookup(ambient, "BUN_INSTALL_CACHE_DIR"),
                       if Truthy(profile) then Some(profile.value + BunCacheSuffix) else None);
    var path := Or(Lookup(ambient, "PATH"), Lookup(ambient, "Path"));
    var withHome := Put(ambient, "HOME", home);
    var withCache := Put(withHome, "BUN_INSTALL_CACHE_DIR", bunCache);
    var withAppData := Put(withCache, "APPDATA", Lookup(ambient, "APPDATA"));
    var withLocal := Put(withAppData, "LOCALAPPDATA", Lookup(ambient, "LOCALAPPDATA"));
    Put(withLocal, "PATH", path)
  }

  lemma LookupPut(env: Env, key: string, value: Option<string>, probe: string)
    ensures Lookup(Put(env, key, value), probe) == if probe == key then value else Lookup(env, probe)
  {
  }

  /**
   * HOME falls back to USERPROFILE, PATH to Path, and BUN_INSTALL_CACHE_DIR to the bun cache under
   * USERPROFILE (absent when USERPROFILE is unset); every other variable is inherited unchanged.
   */
  lemma BuildEnvFallbacks(ambient: Env, probe: string)
    ensures !Overridden(probe) ==> Lookup(BuildEnv(ambient), probe) == Lookup(ambient, probe)
    ensures var env := BuildEnv(ambient);
      && Lookup(env, "HOME") ==
           (if Truthy(Lookup(ambient, "HOME")) then Lookup(ambient, "HOME") else Lookup(ambient, "USERPROFILE"))
      && Lookup(env, "PATH") ==
           (if Truthy(Lookup(ambient, "PATH")) then Lookup(ambient, "PATH") else Lookup(ambient, "Path"))
      && Lookup(env, "BUN_INSTALL_CACHE_DIR") ==
           (if Truthy(Lookup(ambient, "BUN_INSTALL_CACHE_DIR")) then Lookup(ambient, "BUN_INSTALL_CACHE_DIR")
            else if Truthy(Lookup(ambient, "USERPROFILE")) then Some(ambient["USERPROFILE"] + BunCacheSuffix)
            else None)
      && Lookup(env, "APPDATA") == Lookup(ambient, "APPDATA")
      && Lookup(env, "LOCALAPPDATA") == Lookup(ambient, "LOCALAPPDATA")
  {
    var profile := Lookup(ambient, "USERPROFILE");
    var home := Or(Lookup(ambient, "HOME"), profile);
    var bunCache := Or(Lookup(ambient, "BUN_INSTALL_CACHE_DIR"),
                       if Truthy(profile) then Some(profile.value + BunCacheSuffix) else None);
    var path := Or(Lookup(ambient, "PATH"), Lookup(ambient, "Path"));
    var withHome := Put(ambient, "HOME", home);
    var withCache := Put(withHome, "BUN_INSTALL_CACHE_DIR", bunCache);
    var withAppData := Put(withCache, "APPDATA", Lookup(ambient, "APPDATA"));
    var withLocal := Put(withAppData, "LOCALAPPDATA", Lookup(ambient, "LOCALAPPDATA"));
    forall key | key in {probe, "HOME", "PATH", "BUN_INSTALL_CACHE_DIR", "APPDATA", "LOCALAPPDATA"}
      ensures Lookup(BuildEnv(ambient), key) ==
        (if key == "PATH" then path else if key == "LOCALAPPDATA" then Lookup(ambient, "LOCALAPPDATA")
         else if key == "APPDATA" then Lookup(ambient, "APPDATA")
         else if key == "BUN_INSTALL_CACHE_DIR" then bunCache
         else if key == "HOME" then home else Lookup(ambient, key))
    {
      LookupPut(withLocal, "PATH", path, key);
      LookupPut(withAppData, "LOCALAPPDATA", Lookup(ambient, "LOCALAPPDATA"), key);
      LookupPut(withCache, "APPDATA", Lookup(ambient, "APPDATA"), key);
      LookupPut(withHome, "BUN_INSTALL_CACHE_DIR", bunCache, key);
      LookupPut(ambient, "HOME", home, key);
    }
  }

  /** How `stop` kills a child: the whole tree with SIGKILL when it has a (non-zero) pid, the handle otherwise. */
  function KillFor(c: Child): KillRequest {
    if c.pid.Some? && c.pid.value != 0 then TreeKill(c.pid.value, "SIGKILL") else DirectKill(c.serial)
  }

  class ProcessManager {
    /** The live map `processes`: id to child. */
    var processes: map<string, Child>
    /** Every event emitted, in order. */
    var events: seq<Event>
    /** Every kill issued, in order (fire-and-forget: nothing waits for them). */
    var kills: seq<KillRequest>
    /** Every child launched so far, in launch order; a child's serial is its place here. */
    var launched: seq<Child>

    constructor()
      ensures processes == map[] && events == [] && kills == [] && launched == []
    {
      processes, events, kills, launched := map[], [], [], [];
    }

    /** `start`: launch a child with the fallback environment and record it under `id`, replacing any live entry. */
    method Start(id: string, command: string, args: seq<string>, cwd: string, ambient: Env, pid: Option<int>)
      returns (child: Child)
      modifies this
      ensures child == Child(|old(launched)|, id, command, args, cwd, BuildEnv(ambient), pid)
      ensures launched == old(launched) + [child]
      ensures processes == old(processes)[id := child]
      ensures events == old(events) && kills == old(kills)
    {
      child := Child(|launched|, id, command, args, cwd, BuildEnv(ambient), pid);
      launched := launched + [child];
      processes := processes[id := child];
    }

    /** The `data` listener `start` put on the stdout or stderr pipe of `child`: the event carries the id it was started under. */
    method OnOutput(child: Child, stream: Stream, data: string)
      requires child in launched
      modifies this`events
      ensures events == old(events) + [Output(child.id, stream, data)]
    {
      events := events + [Output(child.id, stream, data)];
    }

    /**
     * The `exit` listener `start` put on `child`: emit the exit under the child's start id, then
     * forget that id, whichever child it now maps to.
     */
    method OnExit(child: Child, code: Option<int>)
      requires child in launched
      modifies this`events, this`processes
      ensures events == old(events) + [Exit(child.id, code)]
      ensures processes == old(processes) - {child.id}
    {
      events := events + [Exit(child.id, code)];
      processes := processes - {child.id};
    }

    /** `stop`: a no-op for an unknown id; otherwise issue the kill and forget `id` at once. */
    method Stop(id: string)
      modifies this`processes, this`kills
      ensures id !in old(processes) ==> processes == old(processes) && kills == old(kills)
      ensures id in old(processes) ==>
        && processes == old(processes) - {id}
        && kills == old(kills) + [KillFor(old(processes)[id])]
      ensures forall other :: other != id && other in old(processes) ==>
        other in processes && processes[other] == old(processes)[other]
    {
      if id in processes {
        kills := kills + [KillFor(processes[id])];
        processes := processes - {id};
      }
    }

    /**
     * `stopAll`: stop every tracked id, in some order `order`; afterwards nothing is tracked and
     * every child that was tracked got exactly one kill request.
     */
    method StopAll() returns (ghost order: seq<string>)
      modifies this`processes, this`kills
      ensures processes == map[]
      ensures |order| == |old(processes)|
      ensures forall id :: id in old(processes) <==> id in order
      ensures forall i :: 0 <= i < |order| ==> order[i] in old(processes)
      ensures kills == old(kills) + KillsOf(old(processes), order)
    {
      order := [];
      while processes != map[]
        invariant forall id :: id in processes ==> id in old(processes) && processes[id] == old(processes)[id]
        invariant forall i :: 0 <= i < |order| ==> order[i] in old(processes) && order[i] !in processes
        invariant forall id :: id in old(processes) && id !in processes ==> id in order
        invariant |order| + |processes| == |old(processes)|
        invariant kills == old(kills) + KillsOf(old(processes), order)
        decreases |processes|
      {
        var id :| id in processes;
        assert (processes - {id}).Keys == processes.Keys - {id};
        Stop(id);
        ghost var before := order;
        order := order + [id];
        assert order[..|order| - 1] == before;
      }
    }
  }

  /** The kill requests for the children of `m`, taken in the order `order`. */
  ghost function KillsOf(m: map<string, Child>, order: seq<string>): seq<KillRequest>
    requires forall i :: 0 <= i < |order| ==> order[i] in m
  {
    if order == [] then [] else KillsOf(m, order[..|order| - 1]) + [KillFor(m[order[|order| - 1]])]
  }

  /** Whatever else is running, the output of a child is reported under the id it was started with. */
  method OutputCarriesStartId(id: string, other: string, stream: Stream, data: string, ambient: Env)
    returns (reported: Event)
    ensures reported == Output(id, stream, data)
  {
    var pm := new ProcessManager();
    var child := pm.Start(id, "bun run dev", [], "/repo", ambient, None);
    var _ := pm.Start(other, "bun run dev", [], "/repo", ambient, None);
    pm.OnOutput(child, stream, data);
    reported := pm.events[|pm.events| - 1];
  }

  /**
   * A second `start` under a live id replaces the entry, and the first child's late exit then
   * forgets the replacement too, so `stop` can no longer kill it.
   */
  method RestartUnderSameId(ambient: Env)
    returns (replaced: bool, staleExitId: string, secondTracked: bool, killsIssuedByStop: nat)
    ensures replaced && staleExitId == "server-main" && !secondTracked && killsIssuedByStop == 0
  {
    var pm := new ProcessManager();
    var first := pm.Start("server-main", "bun run dev", [], "/repo", ambient, Some(100));
    var second := pm.Start("server-main", "bun run dev", [], "/repo", ambient, Some(200));
    replaced := pm.processes == map["server-main" := second] && first != second;
    pm.OnExit(first, Some(0));
    staleExitId := pm.events[|pm.events| - 1].id;
    secondTracked := second.id in pm.processes;
    var before := |pm.kills|;
    pm.Stop(second.id);
    killsIssuedByStop := |pm.kills| - before;
  }
}
