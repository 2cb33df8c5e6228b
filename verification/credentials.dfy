/** The credential store, the systemd drop-in that names its files, and the settings file that defers
    to it, changed by one command at a time, each of which may end anywhere
    (toinflux/credential_cli.py). */
module Credentials {
  import opened Numbers

  type Name = string

  /** The credentials `_regenerate_dropin` looks for. A numbered slot is a credential too, and is not
      among them. */
  const STATIC_NAMES: seq<Name> := [
    "hue-user", "influx-password", "influx-token", "influx-user",
    "mcp-password", "mqtt-password", "myenergi-apikey", "octopus-api-key"]

  predicate Static(name: Name) {
    name in STATIC_NAMES
  }

  /** What a settings field may hold: a secret in the clear, the word that says it is in the store,
      or the example's placeholder. */
  datatype Field = Plain(secret: string) | Sentinel | Placeholder

  /** `dropin` are the names whose files the drop-in lists, and `loaded` those systemd last read from
      it. */
  datatype Host = Host(files: map<Name, string>, dropin: set<Name>, loaded: set<Name>, settings: map<Name, Field>)

  /** The listing a drop-in should hold. */
  function Listing(files: map<Name, string>, exclude: Option<Name>): set<Name> {
    set n | n in files.Keys && Static(n) && exclude != Some(n)
  }

  /** `set` and `remove`, ended after so many of their four steps. A daemon-reload that fails is
      tolerated and the command goes on. */
  datatype Command =
    | Set(name: Name, secret: string, steps: nat, reloads: bool)
    | Remove(name: Name, steps: nat, reloads: bool)

  /** Encrypt, list, reload, and only then give up the plaintext. */
  function RunSet(h: Host, name: Name, secret: string, steps: nat, reloads: bool): Host {
    var stored := if steps >= 1 then h.(files := h.files[name := secret]) else h;
    var listed := if steps >= 2 then stored.(dropin := Listing(stored.files, None)) else stored;
    var reloaded := if steps >= 3 && reloads then listed.(loaded := listed.dropin) else listed;
    if steps >= 4 then reloaded.(settings := reloaded.settings[name := Sentinel]) else reloaded
  }

  /** Stop deferring, unlist, reload, and only then delete the file. */
  function RunRemove(h: Host, name: Name, steps: nat, reloads: bool): Host {
    var undeferred := if steps >= 1 then h.(settings := h.settings[name := Placeholder]) else h;
    var unlisted := if steps >= 2 then undeferred.(dropin := Listing(undeferred.files, Some(name))) else undeferred;
    var reloaded := if steps >= 3 && reloads then unlisted.(loaded := unlisted.dropin) else unlisted;
    if steps >= 4 then reloaded.(files := reloaded.files - {name}) else reloaded
  }

  function RunOne(h: Host, c: Command): Host {
    match c
    case Set(name, secret, steps, reloads) => RunSet(h, name, secret, steps, reloads)
    case Remove(name, steps, reloads) => RunRemove(h, name, steps, reloads)
  }

  function RunAll(h: Host, commands: seq<Command>): Host
    decreases |commands|
  {
    if commands == [] then h else RunAll(RunOne(h, commands[0]), commands[1..])
  }

  // ---------- the commands as they run ----------

  class CredentialHost {
    var files: map<Name, string>
    var dropin: set<Name>
    var loaded: set<Name>
    var settings: map<Name, Field>

    function State(): Host
      reads this
    {
      Host(files, dropin, loaded, settings)
    }

    constructor (h: Host)
      ensures State() == h
    {
      files, dropin, loaded, settings := h.files, h.dropin, h.loaded, h.settings;
    }

    /** `_regenerate_dropin`: a fresh listing, name by name. */
    method RegenerateDropin(exclude: Option<Name>)
      modifies this`dropin
      ensures dropin == Listing(files, exclude)
    {
      var lines: set<Name> := {};
      for i := 0 to |STATIC_NAMES|
        invariant lines == set n | n in files.Keys && n in STATIC_NAMES[..i] && exclude != Some(n)
      {
        var name := STATIC_NAMES[i];
        assert STATIC_NAMES[..i + 1] == STATIC_NAMES[..i] + [name];
        if exclude != Some(name) && name in files {
          lines := lines + {name};
        }
      }
      assert STATIC_NAMES[..|STATIC_NAMES|] == STATIC_NAMES;
      dropin := lines;
    }

    method CmdSet(name: Name, secret: string, steps: nat, reloads: bool)
      modifies this
      ensures State() == RunSet(old(State()), name, secret, steps, reloads)
    {
      if steps < 1 {
        return;
      }
      files := files[name := secret];
      if steps < 2 {
        return;
      }
      RegenerateDropin(None);
      if steps < 3 {
        return;
      }
      if reloads {
        loaded := dropin;
      }
      if steps < 4 {
        return;
      }
      settings := settings[name := Sentinel];
    }

    method CmdRemove(name: Name, steps: nat, reloads: bool)
      modifies this
      ensures State() == RunRemove(old(State()), name, steps, reloads)
    {
      if steps < 1 {
        return;
      }
      settings := settings[name := Placeholder];
      if steps < 2 {
        return;
      }
      RegenerateDropin(Some(name));
      if steps < 3 {
        return;
      }
      if reloads {
        loaded := dropin;
      }
      if steps < 4 {
        return;
      }
      files := files - {name};
    }
  }

  // ---------- what every command keeps, wherever it ends ----------

  predicate Defers(h: Host, name: Name) {
    name in h.settings && h.settings[name].Sentinel?
  }

  /** The drop-in lists only static names, and no file that is missing; every field that defers to
      the store has its secret there, and, if it is a static name, is listed. */
  ghost predicate Consistent(h: Host) {
    && h.dropin <= h.files.Keys
    && (forall n :: n in h.dropin ==> Static(n))
    && (forall n :: Defers(h, n) ==> n in h.files && (Static(n) ==> n in h.dropin))
  }

  lemma OneCommandStaysConsistent(h: Host, c: Command)
    requires Consistent(h)
    ensures Consistent(RunOne(h, c))
  {
    var after := RunOne(h, c);
    forall n | Defers(after, n)
      ensures n in after.files && (Static(n) ==> n in after.dropin)
    {
      assert Defers(h, n) || (c.Set? && n == c.name);
    }
  }

  /** Any number of sets and removes, each of them ended anywhere, leave a drop-in that never names a
      file that is not there, and no field deferring to a secret that is not there. */
  lemma {:induction false} CommandsStayConsistent(h: Host, commands: seq<Command>)
    requires Consistent(h)
    ensures Consistent(RunAll(h, commands))
    decreases |commands|
  {
    if commands != [] {
      OneCommandStaysConsistent(h, commands[0]);
      CommandsStayConsistent(RunOne(h, commands[0]), commands[1..]);
    }
  }

  /** Wherever a set ends, either nothing has changed for that credential, or the store holds the new
      secret; and the plaintext goes only when the store has it. So no set leaves the secret in
      neither place. */
  lemma SetNeverLosesTheSecret(h: Host, name: Name, secret: string, steps: nat, reloads: bool)
    ensures var after := RunSet(h, name, secret, steps, reloads);
            && (after.settings != h.settings ==> name in after.files && after.files[name] == secret)
            && (after == h || (name in after.files && after.files[name] == secret))
            && (forall n :: n != name ==>
                  && (n in after.settings <==> n in h.settings)
                  && (n in h.settings ==> after.settings[n] == h.settings[n])
                  && (n in after.files <==> n in h.files)
                  && (n in h.files ==> after.files[n] == h.files[n]))
  {
  }

  predicate Finished(c: Command) {
    c.steps >= 4
  }

  /** A finished set and a finished remove of one credential leave the host without it, and every other as
      it was; no file of it is listed or stored, its field is the placeholder, and, where the remove's
      reload worked, systemd has forgotten it. */
  lemma ARemoveUndoesASet(h: Host, name: Name, secret: string, first: bool, second: bool)
    ensures var after := RunRemove(RunSet(h, name, secret, 4, first), name, 4, second);
            && after.files == h.files - {name}
            && after.settings == h.settings[name := Placeholder]
            && name !in after.dropin && (second ==> name !in after.loaded)
  {
    assert (h.files[name := secret]) - {name} == h.files - {name};
  }

  /** Whatever was interrupted before it, a command that finishes leaves the drop-in listing exactly
      the static credentials that are stored; the listing needs no memory of what went before. */
  lemma AFinishedCommandRepairsTheListing(h: Host, c: Command)
    requires Finished(c)
    ensures var after := RunOne(h, c); after.dropin == Listing(after.files, None)
  {
    var after := RunOne(h, c);
    assert forall n :: n in after.dropin <==> n in Listing(after.files, None);
  }

  /** A credential that is stored reaches the service if and only if it has a static name: after a set
      that finished, the drop-in lists it exactly then, so a numbered slot is stored and deferred to
      and never loaded. */
  lemma OnlyStaticNamesAreListed(h: Host, name: Name, secret: string, reloads: bool)
    ensures var after := RunSet(h, name, secret, 4, reloads);
            Defers(after, name) && (name in after.dropin <==> Static(name))
  {
  }

  /** A second Hue bridge's credential, set with nothing going wrong: it is stored, the settings defer
      to it, and neither the drop-in nor systemd knows of it. */
  lemma ASlotIsStoredAndNeverLoaded(h: Host, secret: string)
    ensures var after := RunSet(h, "hue-user2", secret, 4, true);
            && "hue-user2" in after.files && after.files["hue-user2"] == secret && Defers(after, "hue-user2")
            && "hue-user2" !in after.dropin && "hue-user2" !in after.loaded
  {
    ASlotIsNotStatic();
  }

  lemma ASlotIsNotStatic()
    ensures !Static("hue-user2")
  {
  }

  // ---------- what systemd has loaded ----------

  /** The unit can start: every file it was told to load is there. */
  predicate Startable(h: Host) {
    h.loaded <= h.files.Keys
  }

  /** One command leaves the unit startable exactly where it is not a remove that deleted a file its
      own failed reload left loaded. */
  lemma StartableUnlessARemoveCouldNotReload(h: Host, c: Command)
    requires Consistent(h) && Startable(h)
    ensures Startable(RunOne(h, c)) <==>
              !(c.Remove? && Finished(c) && !c.reloads && c.name in h.loaded)
  {
    var after := RunOne(h, c);
    if c.Remove? && Finished(c) && !c.reloads && c.name in h.loaded {
      assert c.name in after.loaded && c.name !in after.files;
    }
  }

  /** An MQTT password, set with nothing going wrong and removed with a reload that fails: every command
      finished, and systemd still asks for a file that is gone. */
  lemma ARemoveThatCouldNotReload(secret: string)
    ensures var bare := Host(map[], {}, {}, map[]);
            var stored := RunOne(bare, Set("mqtt-password", secret, 4, true));
            var after := RunOne(stored, Remove("mqtt-password", 4, false));
            && Consistent(bare) && Startable(stored) && Consistent(after) && !Startable(after)
            && "mqtt-password" in after.loaded && "mqtt-password" !in after.files
  {
    var bare := Host(map[], {}, {}, map[]);
    var stored := RunOne(bare, Set("mqtt-password", secret, 4, true));
    OneCommandStaysConsistent(bare, Set("mqtt-password", secret, 4, true));
    OneCommandStaysConsistent(stored, Remove("mqtt-password", 4, false));
    assert STATIC_NAMES[5] == "mqtt-password";
    assert "mqtt-password" in stored.loaded;
  }

  lemma {:induction false} ReloadsKeepTheUnitStartable(h: Host, commands: seq<Command>)
    requires Consistent(h) && Startable(h)
    requires forall i :: 0 <= i < |commands| ==> commands[i].reloads
    ensures Startable(RunAll(h, commands))
    decreases |commands|
  {
    if commands != [] {
      OneCommandStaysConsistent(h, commands[0]);
      StartableUnlessARemoveCouldNotReload(h, commands[0]);
      ReloadsKeepTheUnitStartable(RunOne(h, commands[0]), commands[1..]);
    }
  }
}
