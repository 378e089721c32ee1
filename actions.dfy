/**
 * The card actions of menu_overlay3.py and the runner for the command chains some of them
 * return. An action may launch a program in the background (`run_fast`) and then returns
 * "hide", a list of commands to run in order until one succeeds, or nothing.
 */
module Actions {
  import opened Wrappers
  import opened Commands
  import Text
  import StatusText

  /** What a card's `fn` returns. */
  datatype ActionResult =
    | Hide                        // the string "hide"
    | RunChain(cmds: seq<Command>) // a list of commands, the first success ends it
    | NoResult                    // `None`

  /** What calling a card's `fn` did: the program it launched in the background, if any, and its result. */
  datatype Outcome = Outcome(launch: Option<Command>, result: ActionResult)

  /** The kinds of card action. */
  datatype Action =
    | LaunchThenHide(cmd: Command) // the application, Wi-Fi and Bluetooth actions
    | Back                         // `action_back`
    | Chain(cmds: seq<Command>)    // volume and brightness up and down
    | ToggleNightLight             // `action_toggle_night_light`
    | LaunchOnly(cmd: Command)     // reboot and shutdown

  const NightLightSchema := "org.gnome.settings-daemon.plugins.color"
  const NightLightKey := "night-light-enabled"

  /** The `gsettings set` command that asks for the night light to be `value`. */
  function SetNightLight(value: string): Command {
    ["gsettings", "set", NightLightSchema, NightLightKey, value]
  }

  /**
   * Calling a card's `fn`. `nightState` is what `gsettings get` printed for the night light
   * (`None`: it failed), which only the night-light action reads.
   */
  function Perform(a: Action, nightState: Option<string>): (o: Outcome)
    ensures o.result.Hide? <==> a.LaunchThenHide? || a.Back?
    ensures o.result.NoResult? <==> a.LaunchOnly?
    ensures o.launch.Some? <==> a.LaunchThenHide? || a.LaunchOnly?
    ensures a.LaunchThenHide? || a.LaunchOnly? ==> o.launch == Some(a.cmd)
    ensures a.Chain? ==> o.result == RunChain(a.cmds)
  {
    match a
    case LaunchThenHide(cmd) => Outcome(Some(cmd), Hide)
    case Back => Outcome(None, Hide)
    case Chain(cmds) => Outcome(None, RunChain(cmds))
    case ToggleNightLight =>
      Outcome(None, RunChain([SetNightLight(if StatusText.NightLightOn(nightState) then "false" else "true")]))
    case LaunchOnly(cmd) => Outcome(Some(cmd), NoResult)
  }

  /**
   * The night-light action asks for the opposite of the state it read: the one command it
   * returns sets a value that, read back, is the negation of the current state.
   */
  lemma NightLightRequestsNegation(nightState: Option<string>)
    ensures var o := Perform(ToggleNightLight, nightState);
      && o.launch.None? && o.result.RunChain? && |o.result.cmds| == 1
      && var cmd := o.result.cmds[0];
         cmd[..4] == ["gsettings", "set", NightLightSchema, NightLightKey]
         && StatusText.NightLightOn(Some(cmd[4])) == !StatusText.NightLightOn(nightState)
  {
    assert Text.NoSpace("true") && Text.NoSpace("false");
    Text.StripOfNoSpace("true");
    Text.StripOfNoSpace("false");
  }

  // ---------------------------------------------------------------------------
  // The command runner

  /**
   * How many commands of a chain of `n` the runner starts from position `i` on: every one
   * up to and including the first that succeeds, or all of them.
   */
  function Attempts(succeeds: nat -> bool, i: nat, n: nat): (k: nat)
    requires i <= n
    ensures i <= k <= n
    ensures forall j :: i <= j < k - 1 ==> !succeeds(j)
    ensures k < n ==> i < k && succeeds(k - 1)
    ensures k == n && i < n ==> (forall j :: i <= j < n - 1 ==> !succeeds(j))
    decreases n - i
  {
    if i == n then n
    else if succeeds(i) then i + 1
    else Attempts(succeeds, i + 1, n)
  }

  /**
   * The chain stops at its first success: when command `s` succeeds and none before it does,
   * exactly the commands up to `s` are started.
   */
  lemma {:induction false} AttemptsStopAtFirstSuccess(succeeds: nat -> bool, i: nat, n: nat, s: nat)
    requires i <= s < n && succeeds(s)
    requires forall j :: i <= j < s ==> !succeeds(j)
    ensures Attempts(succeeds, i, n) == s + 1
    decreases s - i
  {
    if i < s {
      AttemptsStopAtFirstSuccess(succeeds, i + 1, n, s);
    }
  }

  /** When no command succeeds, all of them are started. */
  lemma {:induction false} AttemptsWithoutSuccess(succeeds: nat -> bool, i: nat, n: nat)
    requires i <= n
    requires forall j :: i <= j < n ==> !succeeds(j)
    ensures Attempts(succeeds, i, n) == n
    decreases n - i
  {
    if i < n {
      AttemptsWithoutSuccess(succeeds, i + 1, n);
    }
  }

  /**
   * `run_threaded_action`: the commands are tried in order with `subprocess.run(cmd,
   * check=True)`; the first that succeeds ends the loop, and `on_finish`, when there is
   * one, is called once afterwards whatever happened. `succeeds(j)` is whether the `j`-th
   * command exits normally with status 0.
   */
  method RunThreadedAction(cmds: seq<Command>, succeeds: nat -> bool, hasOnFinish: bool)
    returns (ran: seq<Command>, succeeded: bool, finishCalls: nat)
    ensures ran == cmds[..Attempts(succeeds, 0, |cmds|)]
    ensures succeeded <==> exists j :: 0 <= j < |cmds| && succeeds(j)
    ensures succeeded ==> succeeds(|ran| - 1) && forall j :: 0 <= j < |ran| - 1 ==> !succeeds(j)
    ensures finishCalls == (if hasOnFinish then 1 else 0)
  {
    ran := [];
    succeeded := false;
    var i := 0;
    while i < |cmds| && !succeeded
      invariant 0 <= i <= |cmds|
      invariant ran == cmds[..i]
      invariant !succeeded ==> forall j :: 0 <= j < i ==> !succeeds(j)
      invariant succeeded ==> 0 < i && succeeds(i - 1) && forall j :: 0 <= j < i - 1 ==> !succeeds(j)
    {
      assert cmds[..i + 1] == cmds[..i] + [cmds[i]];
      ran := ran + [cmds[i]];
      succeeded := succeeds(i);
      i := i + 1;
    }
    if succeeded {
      AttemptsStopAtFirstSuccess(succeeds, 0, |cmds|, i - 1);
    } else {
      AttemptsWithoutSuccess(succeeds, 0, |cmds|);
    }
    finishCalls := 0;
    if hasOnFinish {
      finishCalls := finishCalls + 1;
    }
  }
}
