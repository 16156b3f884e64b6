/** The text commands that select a manual mode (manual_setting in
    fw/main.c).  A command is the received datagram: exactly the bytes
    the sender sent, with no terminator added, and its length is the
    length bound handed to strncmp.  Each mode's literal is compared in
    turn and the first that matches wins, so any prefix of a literal
    (including the empty command) selects that literal's mode. */
module Commands {
  import opened Control

  const NUL: char := '\0'

  /** strncmp(command, literal, n) == 0 for a NUL-terminated literal: the
      first n characters agree, where the literal reads as NUL past its
      end, and the comparison stops early once both hold a NUL. */
  predicate StrnEqual(command: string, literal: string, n: nat)
    requires n <= |command|
    ensures StrnEqual(command, literal, n) && NulFree(literal) && n <= |literal| ==>
              command[..n] == literal[..n]
    decreases n
  {
    n == 0 ||
    (var c := if literal == [] then NUL else literal[0];
     command[0] == c && (c == NUL || StrnEqual(command[1..], literal[1..], n - 1)))
  }

  /** The meaning of a command matching a literal, stated without the
      character-by-character loop: either the command is a prefix of the
      literal, or it starts with the whole literal followed by a NUL. */
  predicate MatchesLiteral(command: string, literal: string)
  {
    if |command| <= |literal| then command == literal[..|command|]
    else command[..|literal|] == literal && command[|literal|] == NUL
  }

  predicate NulFree(literal: string)
  {
    forall k :: 0 <= k < |literal| ==> literal[k] != NUL
  }

  /** The strncmp test agrees with the closed form above. */
  lemma {:induction false} StrnEqualMeaning(command: string, literal: string)
    requires NulFree(literal)
    ensures StrnEqual(command, literal, |command|) <==> MatchesLiteral(command, literal)
    decreases |command|
  {
    if command != [] && literal != [] {
      StrnEqualMeaning(command[1..], literal[1..]);
      if |command| <= |literal| {
        assert command == [command[0]] + command[1..];
        assert literal[..|command|] == [literal[0]] + literal[1..][..|command| - 1];
      } else {
        assert command[..|literal|] == [command[0]] + command[1..][..|literal| - 1];
        assert literal == [literal[0]] + literal[1..];
      }
    }
  }

  /** The command literals in the order manual_setting tries them. */
  const COMMANDS: seq<(string, ManualMode)> := [
    ("piv auto", Auto),
    ("piv dark", AutoDark),
    ("piv on", ManualOn),
    ("piv boost", ManualBoost),
    ("piv off", ManualOff)
  ]

  /** The first literal from position i on that the command matches. */
  function MatchFrom(command: string, i: nat): (r: Option<ManualMode>)
    requires i <= |COMMANDS|
    ensures r.None? <==> forall j :: i <= j < |COMMANDS| ==> !StrnEqual(command, COMMANDS[j].0, |command|)
    ensures r.Some? ==> exists j :: i <= j < |COMMANDS| && FirstMatch(command, i, j) && r.value == COMMANDS[j].1
    decreases |COMMANDS| - i
  {
    if i == |COMMANDS| then None
    else if StrnEqual(command, COMMANDS[i].0, |command|) then Some(COMMANDS[i].1)
    else MatchFrom(command, i + 1)
  }

  /** Literal j matches the command and no literal tried from position i
      up to j does. */
  predicate FirstMatch(command: string, i: nat, j: nat)
    requires j < |COMMANDS|
  {
    StrnEqual(command, COMMANDS[j].0, |command|) &&
    forall k :: i <= k < j ==> !StrnEqual(command, COMMANDS[k].0, |command|)
  }

  /** The mode a command selects, if any: the first literal it matches. */
  function MatchCommand(command: string): (r: Option<ManualMode>)
    ensures r.None? <==> forall j :: 0 <= j < |COMMANDS| ==> !StrnEqual(command, COMMANDS[j].0, |command|)
    ensures r.Some? ==> exists j :: 0 <= j < |COMMANDS| && FirstMatch(command, 0, j) && r.value == COMMANDS[j].1
  {
    MatchFrom(command, 0)
  }

  /** Every literal, sent as it is or followed by a NUL and anything at
      all, selects its own mode. */
  lemma {:induction false} LiteralsSelectTheirMode(j: nat, tail: string)
    requires j < |COMMANDS|
    requires tail == [] || tail[0] == NUL
    ensures MatchCommand(COMMANDS[j].0 + tail) == Some(COMMANDS[j].1)
  {
    var command := COMMANDS[j].0 + tail;
    assert command[..|COMMANDS[j].0|] == COMMANDS[j].0;
    forall k | 0 <= k < |COMMANDS|
      ensures StrnEqual(command, COMMANDS[k].0, |command|) <==> MatchesLiteral(command, COMMANDS[k].0)
    {
      StrnEqualMeaning(command, COMMANDS[k].0);
    }
    assert MatchesLiteral(command, COMMANDS[j].0);
    forall k | 0 <= k < j
      ensures !MatchesLiteral(command, COMMANDS[k].0)
    {
      LiteralsDisagree(k, j, tail);
    }
    assert FirstMatch(command, 0, j);
  }

  /** No literal tried before literal j accepts literal j's text. */
  lemma {:induction false} LiteralsDisagree(k: nat, j: nat, tail: string)
    requires k < j < |COMMANDS|
    requires tail == [] || tail[0] == NUL
    ensures !MatchesLiteral(COMMANDS[j].0 + tail, COMMANDS[k].0)
  {
    var command := COMMANDS[j].0 + tail;
    var lit := COMMANDS[k].0;
    assert command[4] != lit[4] || command[5] != lit[5];
  }

  /** Every prefix of "piv auto", the empty command included, selects
      Auto, because "piv auto" is tried first. */
  lemma {:induction false} PrefixesSelectAuto(command: string)
    requires |command| <= |COMMANDS[0].0|
    requires command == COMMANDS[0].0[..|command|]
    ensures MatchCommand(command) == Some(Auto)
  {
    StrnEqualMeaning(command, COMMANDS[0].0);
    assert FirstMatch(command, 0, 0);
  }

  /** A command that matches no literal selects nothing. */
  lemma UnknownCommand()
    ensures MatchCommand("piv nonsense") == None
  {
    forall j | 0 <= j < |COMMANDS|
      ensures !StrnEqual("piv nonsense", COMMANDS[j].0, |"piv nonsense"|)
    {
      StrnEqualMeaning("piv nonsense", COMMANDS[j].0);
      assert "piv nonsense"[4] != COMMANDS[j].0[4];
    }
  }

  datatype CommandResult = CommandResult(ok: bool, state: ControlState)

  /** manual_setting on a snapshot of the controller: a recognised command
      selects its mode and starts the manual timeout from now, and any
      other command changes nothing. */
  function ManualSetting(cfg: Config, s: ControlState, command: string, now: int): (r: CommandResult)
    ensures r.ok <==> MatchCommand(command).Some?
    ensures !r.ok ==> r.state == s
    ensures r.ok ==> r.state == s.(manual := MatchCommand(command).value,
                                   manualModeEndTime := now + SecondsToMs(cfg.manualTimeoutS))
  {
    match MatchCommand(command)
    case Some(mode) =>
      CommandResult(true, s.(manual := mode, manualModeEndTime := now + SecondsToMs(cfg.manualTimeoutS)))
    case None => CommandResult(false, s)
  }

  /** A recognised manual command (such as "piv boost") holds for
      manual_timeout_s: every tick before the timeout keeps the commanded
      mode, and the first tick at or after it returns to Auto. */
  lemma {:induction false} ManualUntilTimeout(cfg: Config, s: ControlState, command: string, now: int,
                           before: seq<TickInput>, expiry: TickInput)
    requires MatchCommand(command).Some? && IsManual(MatchCommand(command).value)
    requires forall k :: 0 <= k < |before| ==> before[k].now < now + SecondsToMs(cfg.manualTimeoutS)
    requires expiry.now >= now + SecondsToMs(cfg.manualTimeoutS)
    ensures Run(cfg, ManualSetting(cfg, s, command, now).state, before).manual == MatchCommand(command).value
    ensures Tick(cfg, Run(cfg, ManualSetting(cfg, s, command, now).state, before), expiry).state.manual == Auto
  {
    ManualExpires(cfg, ManualSetting(cfg, s, command, now).state, before, expiry);
  }
}
