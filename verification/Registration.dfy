/** The search for a nick the server takes, during registration. */
module Registration {
  import opened Options
  import opened Text

  const MAX_NICK_TRIES: nat := 10

  /** 432, 433 and 437. */
  datatype Command = Erroneous | InUse | Unavailable

  datatype Refusal = Refusal(command: Command, params: seq<string>)

  /** Why the attempt was stopped or given up. */
  datatype Reason = NotAllowed(nick: string, why: string) | NoneAllowed(why: string) | NoneFree(why: string)

  /** The registering part of a client; sent is the nicks it has asked for with NICK. */
  datatype State = State(
    configNick: string,
    regNick: string,
    regTries: nat,
    stopped: Option<Reason>,
    gaveUp: Option<Reason>,
    sent: seq<string>)

  // ----- one refusal -----

  function Base(nick: string): string {
    TrimRight(nick, '_')
  }

  /** nick with its last character before the trailing underscores made one too, or "". */
  function UnderscoreLast(nick: string): string {
    var base := |Base(nick)|;
    if base <= 1 then "" else nick[base - 1 := '_']
  }

  datatype Choice = Try(nick: string) | NoneLeft | Exhausted

  /** What to do about a refused fallback, having last sent `sent`. */
  function NextNick(command: Command, refused: string, sent: string): Choice {
    if command == Erroneous then
      var base := Base(refused);
      if |base| <= 1 then NoneLeft else Try(base[..|base| - 1] + "_")
    else if |refused| < |sent| then
      var next := UnderscoreLast(refused);
      if next == "" then Exhausted else Try(next)
    else Try(refused + "_")
  }

  /** The nick a refusal names; a short one means the nick sent last. */
  function RefusedNick(m: Refusal, sent: string): string {
    if |m.params| >= 3 then m.params[1] else sent
  }

  /** A refusal before 001. */
  function Refused(s: State, m: Refusal): State {
    if |m.params| < 2 then s
    else
      var refused := RefusedNick(m, s.regNick);
      var why := m.params[|m.params| - 1];
      if m.command == Erroneous && EqualFold(refused, s.configNick) then
        s.(stopped := Some(NotAllowed(refused, why)))
      else
        var s1 := s.(regTries := s.regTries + 1);
        if s1.regTries > MAX_NICK_TRIES then s1.(gaveUp := Some(NoneFree(why)))
        else
          match NextNick(m.command, refused, s.regNick)
          case NoneLeft => s1.(stopped := Some(NoneAllowed(why)))
          case Exhausted => s1.(gaveUp := Some(NoneFree(why)))
          case Try(next) => s1.(regNick := next, sent := s.sent + [next])
  }

  function Fresh(configNick: string): State {
    State(configNick, configNick, 0, None, None, [])
  }

  /** The fields of IRCClient that registration updates. */
  class Registrar {
    var configNick: string
    var regNick: string
    var regTries: nat
    var stopped: Option<Reason>
    var gaveUp: Option<Reason>
    var sent: seq<string>

    function View(): State
      reads this
    {
      State(configNick, regNick, regTries, stopped, gaveUp, sent)
    }

    constructor (configNick: string)
      ensures View() == Fresh(configNick)
    {
      this.configNick, regNick, regTries := configNick, configNick, 0;
      stopped, gaveUp, sent := None, None, [];
    }

    method NickRefused(m: Refusal)
      modifies this
      ensures View() == Refused(old(View()), m)
    {
      if |m.params| < 2 {
        return;
      }
      var refused := regNick;
      if |m.params| >= 3 {
        refused := m.params[1];
      }
      var why := m.params[|m.params| - 1];
      if m.command == Erroneous && EqualFold(refused, configNick) {
        stopped := Some(NotAllowed(refused, why));
        return;
      }
      regTries := regTries + 1;
      if regTries > MAX_NICK_TRIES {
        gaveUp := Some(NoneFree(why));
        return;
      }
      var next;
      if m.command == Erroneous {
        var base := TrimRight(refused, '_');
        if |base| <= 1 {
          stopped := Some(NoneAllowed(why));
          return;
        }
        next := base[..|base| - 1] + "_";
      } else if |refused| < |regNick| {
        next := UnderscoreLast(refused);
        if next == "" {
          gaveUp := Some(NoneFree(why));
          return;
        }
      } else {
        next := refused + "_";
      }
      regNick := next;
      sent := sent + [next];
    }
  }

  // ----- each next nick -----

  lemma TrimmedTail(a: string, n: nat)
    requires n <= |a| && (forall i :: n <= i < |a| ==> a[i] == '_')
    ensures |Base(a)| <= n
  {}

  lemma TrimmedCut(a: string, n: nat)
    requires n <= |a|
    ensures |Base(a[..n])| <= |Base(a)|
  {
    var b := |Base(a)|;
    if b < n {
      TrimmedTail(a[..n], b);
    }
  }

  /** The next nick is never the refused one. */
  lemma NextDiffers(command: Command, refused: string, sent: string)
    ensures var c := NextNick(command, refused, sent); c.Try? ==> c.nick != refused
  {
    var base := Base(refused);
    if command == Erroneous && |base| > 1 {
      var next := base[..|base| - 1] + "_";
      assert next[|base| - 1] == '_' != base[|base| - 1] == refused[|base| - 1];
    }
  }

  /** Not allowed: the next nick is the refused one without its last character but the underscores, then one
      underscore. */
  lemma NotAllowedDropsOne(refused: string, sent: string)
    requires |Base(refused)| > 1
    ensures var c, n := NextNick(Erroneous, refused, sent), |Base(refused)|;
            c.Try? && |c.nick| == n && c.nick[n - 1] == '_' && forall i :: 0 <= i < n - 1 ==> c.nick[i] == refused[i]
  {}

  /** In use, and cut: the next nick differs from the refused one in a single place, its last character but the
      underscores, which becomes one. */
  lemma CutChangesOne(command: Command, refused: string, sent: string)
    requires command != Erroneous && |refused| < |sent| && |Base(refused)| > 1
    ensures var c, n := NextNick(command, refused, sent), |Base(refused)|;
            c.Try? && |c.nick| == |refused| && c.nick[n - 1] == '_' && refused[n - 1] != '_'
            && forall i :: 0 <= i < |refused| && i != n - 1 ==> c.nick[i] == refused[i]
  {}

  /** A nick of letters alone, with underscores after it. */
  predicate Plain(nick: string) {
    nick != "" && '_' !in nick
  }

  function Underscores(n: nat): string {
    seq(n, _ => '_')
  }

  lemma BaseOf(letters: string, n: nat)
    requires Plain(letters)
    ensures Base(letters + Underscores(n)) == letters
  {
    var nick := letters + Underscores(n);
    assert nick[|letters| - 1] == letters[|letters| - 1] != '_';
    TrimmedTail(nick, |letters|);
    assert nick[..|letters|] == letters;
  }

  // ----- a server that cuts nicks -----

  /** The nick as a server with nicks of at most limit characters sees it. */
  function Cut(nick: string, limit: nat): string {
    if |nick| <= limit then nick else nick[..limit]
  }

  function Room(nick: string, limit: nat): nat {
    if limit + 1 >= |nick| then limit + 1 - |nick| else 0
  }

  /** The measure of the search: the trimmed length, then the room left. */
  ghost predicate Below(a: string, b: string, limit: nat) {
    |Base(a)| < |Base(b)| || (|Base(a)| == |Base(b)| && Room(a, limit) < Room(b, limit))
  }

  /** Whatever the server answers about the nick we sent, cut to its limit, the search goes down. */
  lemma SearchGoesDown(command: Command, nick: string, limit: nat)
    ensures var c := NextNick(command, Cut(nick, limit), nick); c.Try? ==> Below(c.nick, nick, limit)
  {
    var refused := Cut(nick, limit);
    var base := |Base(refused)|;
    var c := NextNick(command, refused, nick);
    TrimmedCut(nick, |refused|);
    if c.Try? {
      if command == Erroneous || |refused| < |nick| {
        TrimmedTail(c.nick, base - 1);
      } else {
        TrimmedTail(nick + "_", base);
        TrimmedCut(nick + "_", |nick|);
        assert (nick + "_")[..|nick|] == nick;
      }
    }
  }

  function Rank(nick: string, limit: nat): nat {
    |Base(nick)| * (limit + 2) + Room(nick, limit)
  }

  lemma {:induction false} Multiples(x: nat, y: nat, k: nat)
    requires x < y
    ensures x * k + k <= y * k
  {
    assert y * k == x * k + (y - x) * k;
    if y > x + 1 { Multiples(x, y - 1, k); }
  }

  lemma BelowRanks(a: string, b: string, limit: nat)
    requires Below(a, b, limit)
    ensures Rank(a, limit) < Rank(b, limit)
  {
    if |Base(a)| < |Base(b)| {
      Multiples(|Base(a)|, |Base(b)|, limit + 2);
    }
  }

  /** The nicks tried after nick when the server refuses each with the next command, uncapped. */
  function Tried(nick: string, limit: nat, commands: seq<Command>): seq<string>
    decreases |commands|
  {
    if commands == [] then []
    else
      match NextNick(commands[0], Cut(nick, limit), nick)
      case Try(next) => [next] + Tried(next, limit, commands[1..])
      case _ => []
  }

  lemma {:induction false} TriedRanks(nick: string, limit: nat, commands: seq<Command>)
    ensures forall n :: n in Tried(nick, limit, commands) ==> Rank(n, limit) < Rank(nick, limit)
    decreases |commands|
  {
    if commands != [] {
      var c := NextNick(commands[0], Cut(nick, limit), nick);
      if c.Try? {
        SearchGoesDown(commands[0], nick, limit);
        BelowRanks(c.nick, nick, limit);
        TriedRanks(c.nick, limit, commands[1..]);
      }
    }
  }

  /** The search ends by itself, with no cap on the tries. */
  lemma {:induction false} SearchEnds(nick: string, limit: nat, commands: seq<Command>)
    ensures |Tried(nick, limit, commands)| <= Rank(nick, limit)
    decreases |commands|
  {
    if commands != [] {
      var c := NextNick(commands[0], Cut(nick, limit), nick);
      if c.Try? {
        SearchGoesDown(commands[0], nick, limit);
        BelowRanks(c.nick, nick, limit);
        SearchEnds(c.nick, limit, commands[1..]);
      }
    }
  }

  /** It never asks for the same nick twice. */
  lemma {:induction false} SearchNeverRepeats(nick: string, limit: nat, commands: seq<Command>)
    ensures var all := [nick] + Tried(nick, limit, commands);
            forall i, j :: 0 <= i < j < |all| ==> all[i] != all[j]
    decreases |commands|
  {
    TriedRanks(nick, limit, commands);
    var rest := Tried(nick, limit, commands);
    if commands != [] {
      var c := NextNick(commands[0], Cut(nick, limit), nick);
      if c.Try? {
        SearchNeverRepeats(c.nick, limit, commands[1..]);
        assert rest == [c.nick] + Tried(c.nick, limit, commands[1..]);
        assert forall i, j :: 0 <= i < j < |rest| ==> rest[i] != rest[j];
      }
    }
    var all := [nick] + rest;
    forall i, j | 0 <= i < j < |all| ensures all[i] != all[j] {
      assert all[j] == rest[j - 1];
      if i == 0 {
        assert rest[j - 1] in rest;
      } else {
        assert all[i] == rest[i - 1] != rest[j - 1];
      }
    }
  }

  /** Each next nick is a beginning of the nick it came from, then only underscores. */
  lemma NextIsBuiltOn(command: Command, nick: string, limit: nat)
    ensures var c := NextNick(command, Cut(nick, limit), nick); c.Try? ==> Base(c.nick) <= Base(nick)
  {
    var refused := Cut(nick, limit);
    var c := NextNick(command, refused, nick);
    TrimmedCut(nick, |refused|);
    assert Base(refused) <= Base(nick);
    if c.Try? {
      if command == Erroneous || |refused| < |nick| {
        TrimmedTail(c.nick, |Base(refused)| - 1);
        assert Base(c.nick) <= Base(refused)[..|Base(refused)| - 1];
      } else {
        TrimmedTail(nick + "_", |Base(nick)|);
        assert Base(c.nick) <= (nick + "_")[..|Base(nick)|];
      }
    }
  }

  lemma {:induction false} TriedAreBuiltOn(nick: string, limit: nat, commands: seq<Command>)
    ensures forall n :: n in Tried(nick, limit, commands) ==> Base(n) <= Base(nick)
    decreases |commands|
  {
    if commands != [] {
      var c := NextNick(commands[0], Cut(nick, limit), nick);
      if c.Try? {
        NextIsBuiltOn(commands[0], nick, limit);
        TriedAreBuiltOn(c.nick, limit, commands[1..]);
      }
    }
  }

  /** In use every time and short enough: me, me_, me__ and so on. */
  lemma {:induction false} InUseAppends(nick: string, limit: nat, commands: seq<Command>)
    requires |nick| + |commands| <= limit + 1
    requires forall i :: 0 <= i < |commands| ==> commands[i] != Erroneous
    ensures Tried(nick, limit, commands) == seq(|commands|, i requires 0 <= i < |commands| => nick + Underscores(i + 1))
    decreases |commands|
  {
    if commands != [] {
      assert commands[0] != Erroneous;
      assert Cut(nick, limit) == nick;
      var rest := commands[1..];
      InUseAppends(nick + "_", limit, rest);
      forall i: nat ensures nick + "_" + Underscores(i) == nick + Underscores(i + 1) {
        assert Underscores(i + 1) == "_" + Underscores(i);
      }
      assert nick + "_" == nick + Underscores(1);
    }
  }

  /** The nicks tried, when each follows from the one before. */
  lemma {:induction false} TriedAre(nicks: seq<string>, limit: nat, commands: seq<Command>)
    requires |nicks| == |commands| + 1
    requires forall i :: 0 <= i < |commands| ==> NextNick(commands[i], Cut(nicks[i], limit), nicks[i]) == Try(nicks[i + 1])
    ensures Tried(nicks[0], limit, commands) == nicks[1..]
    decreases |commands|
  {
    if commands != [] {
      var rest, later := nicks[1..], commands[1..];
      forall i | 0 <= i < |later| ensures NextNick(later[i], Cut(rest[i], limit), rest[i]) == Try(rest[i + 1]) {
        assert later[i] == commands[i + 1];
      }
      TriedAre(rest, limit, later);
      assert [rest[0]] + rest[1..] == rest;
    }
  }

  /** The i-th nick after i 432s: verylongnick, verylongnic_, verylongni_ and so on. */
  function ShortNick(nick: string, i: nat): string
    requires i <= |nick|
  {
    if i == 0 then nick else nick[..|nick| - i] + Underscores(1)
  }

  lemma NextShortNick(nick: string, i: nat, limit: nat)
    requires Plain(nick) && i + 1 < |nick| <= limit
    ensures NextNick(Erroneous, Cut(ShortNick(nick, i), limit), ShortNick(nick, i)) == Try(ShortNick(nick, i + 1))
  {
    var letters := nick[..|nick| - i];
    BaseOf(letters, if i == 0 then 0 else 1);
    assert ShortNick(nick, i) == letters + Underscores(if i == 0 then 0 else 1);
    assert letters[..|letters| - 1] == nick[..|nick| - i - 1];
    assert Underscores(1) == "_";
  }

  function ShortNicks(nick: string, n: nat): seq<string>
    requires n <= |nick|
  {
    seq(n + 1, i requires 0 <= i <= n => ShortNick(nick, i))
  }

  lemma ShortNicksFollow(nick: string, n: nat, limit: nat, i: nat)
    requires Plain(nick) && i < n < |nick| <= limit
    ensures var nicks := ShortNicks(nick, n);
            NextNick(Erroneous, Cut(nicks[i], limit), nicks[i]) == Try(nicks[i + 1])
  {
    NextShortNick(nick, i, limit);
  }

  /** Not allowed every time: each next nick is one letter shorter. */
  lemma NotAllowedShortens(nick: string, limit: nat, commands: seq<Command>)
    requires Plain(nick) && |commands| < |nick| <= limit
    requires forall i :: 0 <= i < |commands| ==> commands[i] == Erroneous
    ensures Tried(nick, limit, commands) == ShortNicks(nick, |commands|)[1..]
  {
    var nicks := ShortNicks(nick, |commands|);
    forall i | 0 <= i < |commands|
      ensures NextNick(commands[i], Cut(nicks[i], limit), nicks[i]) == Try(nicks[i + 1])
    {
      ShortNicksFollow(nick, |commands|, limit, i);
    }
    TriedAre(nicks, limit, commands);
  }

  /** The i-th nick against a server whose limit is nick's length: nick, nick_, nic_, nic__, ni__ and so on. */
  function CutNick(nick: string, i: nat): string
    requires i / 2 <= |nick|
  {
    nick[..|nick| - i / 2] + Underscores((i + 1) / 2)
  }

  lemma NextCutNick(command: Command, nick: string, i: nat)
    requires Plain(nick) && command != Erroneous && (i + 1) / 2 < |nick|
    ensures NextNick(command, Cut(CutNick(nick, i), |nick|), CutNick(nick, i)) == Try(CutNick(nick, i + 1))
  {
    var now, next, letters := CutNick(nick, i), CutNick(nick, i + 1), nick[..|nick| - i / 2];
    if i % 2 == 0 {
      assert (i + 1) / 2 == i / 2 && (i + 2) / 2 == i / 2 + 1;
      assert Underscores(i / 2) + "_" == Underscores(i / 2 + 1);
      assert now + "_" == next;
    } else {
      assert (i + 1) / 2 == i / 2 + 1 == (i + 2) / 2;
      var refused := letters + Underscores(i / 2);
      assert Cut(now, |nick|) == refused;
      BaseOf(letters, i / 2);
      assert refused[|letters| - 1 := '_'] == next;
    }
  }

  function CutNicks(nick: string, n: nat): seq<string>
    requires n / 2 <= |nick|
  {
    seq(n + 1, i requires 0 <= i <= n => CutNick(nick, i))
  }

  /** In use every time, on such a server. */
  lemma InUseTradesLetters(nick: string, commands: seq<Command>)
    requires Plain(nick) && |commands| / 2 < |nick|
    requires forall j :: 0 <= j < |commands| ==> commands[j] != Erroneous
    ensures Tried(nick, |nick|, commands) == CutNicks(nick, |commands|)[1..]
  {
    var nicks := CutNicks(nick, |commands|);
    forall i | 0 <= i < |commands|
      ensures NextNick(commands[i], Cut(nicks[i], |nick|), nicks[i]) == Try(nicks[i + 1])
    {
      CutNicksFollow(nick, commands, i);
    }
    TriedAre(nicks, |nick|, commands);
    CutNicksBegin(nick, |commands|);
  }

  lemma CutNicksBegin(nick: string, n: nat)
    requires n / 2 <= |nick|
    ensures CutNicks(nick, n)[0] == nick
  {}

  lemma CutNicksFollow(nick: string, commands: seq<Command>, i: nat)
    requires Plain(nick) && |commands| / 2 < |nick| && i < |commands| && commands[i] != Erroneous
    ensures var nicks := CutNicks(nick, |commands|);
            NextNick(commands[i], Cut(nicks[i], |nick|), nicks[i]) == Try(nicks[i + 1])
  {
    assert (i + 1) / 2 < |nick|;
    NextCutNick(commands[i], nick, i);
  }

  /** A server whose replies name no nick would be tried for ever: the cap is what ends that search. */
  function TriedUnnamed(nick: string, commands: seq<Command>): seq<string>
    decreases |commands|
  {
    if commands == [] then []
    else
      match NextNick(commands[0], nick, nick)
      case Try(next) => [next] + TriedUnnamed(next, commands[1..])
      case _ => []
  }

  lemma {:induction false} UnnamedNeedsTheCap(nick: string, commands: seq<Command>)
    requires forall i :: 0 <= i < |commands| ==> commands[i] == InUse
    ensures |TriedUnnamed(nick, commands)| == |commands|
    decreases |commands|
  {
    if commands != [] {
      assert commands[0] == InUse;
      UnnamedNeedsTheCap(nick + "_", commands[1..]);
    }
  }

  // ----- whole attempts -----

  function RefusedAll(s: State, ms: seq<Refusal>): State
    decreases |ms|
  {
    if ms == [] then s else RefusedAll(Refused(s, ms[0]), ms[1..])
  }

  lemma {:induction false} TriesBoundSent(s: State, ms: seq<Refusal>)
    requires |s.sent| <= s.regTries && |s.sent| <= MAX_NICK_TRIES
    ensures |RefusedAll(s, ms).sent| <= MAX_NICK_TRIES
    decreases |ms|
  {
    if ms != [] {
      TriesBoundSent(Refused(s, ms[0]), ms[1..]);
    }
  }

  /** Against any server at all, an attempt asks for at most MAX_NICK_TRIES fallbacks. */
  lemma AtMostTenFallbacks(configNick: string, ms: seq<Refusal>)
    ensures |RefusedAll(Fresh(configNick), ms).sent| <= MAX_NICK_TRIES
  {
    TriesBoundSent(Fresh(configNick), ms);
  }

  /** Each refusal names the nick last sent, cut to the server's limit. */
  ghost predicate Honest(s: State, ms: seq<Refusal>, limit: nat)
    decreases |ms|
  {
    ms == [] || (|ms[0].params| >= 3 && ms[0].params[1] == Cut(s.regNick, limit)
                 && Honest(Refused(s, ms[0]), ms[1..], limit))
  }

  /** The nicks sent go down in rank, from the configured one to the one sent last. */
  ghost predicate Descends(s: State, limit: nat) {
    var all := [s.configNick] + s.sent;
    && s.regNick == all[|all| - 1]
    && forall i, j :: 0 <= i < j < |all| ==> Rank(all[j], limit) < Rank(all[i], limit)
  }

  lemma RefusedDescends(s: State, m: Refusal, limit: nat)
    requires Descends(s, limit) && |m.params| >= 3 && m.params[1] == Cut(s.regNick, limit)
    ensures Descends(Refused(s, m), limit)
  {
    var t := Refused(s, m);
    if t.sent != s.sent {
      SearchGoesDown(m.command, s.regNick, limit);
      BelowRanks(t.regNick, s.regNick, limit);
      DescendsOneMore(s, t, limit);
    }
  }

  lemma DescendsOneMore(s: State, t: State, limit: nat)
    requires Descends(s, limit) && Rank(t.regNick, limit) < Rank(s.regNick, limit)
    requires t.configNick == s.configNick && t.sent == s.sent + [t.regNick]
    ensures Descends(t, limit)
  {
    var all := [s.configNick] + s.sent;
    assert [t.configNick] + t.sent == all + [t.regNick];
  }

  lemma {:induction false} KeepsDescending(s: State, ms: seq<Refusal>, limit: nat)
    requires Descends(s, limit) && Honest(s, ms, limit)
    ensures Descends(RefusedAll(s, ms), limit) && RefusedAll(s, ms).configNick == s.configNick
    decreases |ms|
  {
    if ms != [] {
      RefusedDescends(s, ms[0], limit);
      KeepsDescending(Refused(s, ms[0]), ms[1..], limit);
    }
  }

  /** So a whole attempt against such a server never asks for a nick twice, nor for the configured
      one again. */
  lemma AttemptNeverRepeats(configNick: string, ms: seq<Refusal>, limit: nat)
    requires Honest(Fresh(configNick), ms, limit)
    ensures var all := [configNick] + RefusedAll(Fresh(configNick), ms).sent;
            forall i, j :: 0 <= i < j < |all| ==> all[i] != all[j]
  {
    KeepsDescending(Fresh(configNick), ms, limit);
  }

  /** The client stops for good exactly when the server disallows the configured nick, or disallows
      a fallback with nothing left to drop while tries remain. */
  lemma StopsExactly(s: State, m: Refusal)
    requires s.stopped == None && |m.params| >= 2
    ensures var refused := RefusedNick(m, s.regNick);
            Refused(s, m).stopped.Some? <==>
              m.command == Erroneous
              && (EqualFold(refused, s.configNick) || (s.regTries < MAX_NICK_TRIES && |Base(refused)| <= 1))
  {}

  /** And what it does about each refusal, one of four things: it stops for the configured nick, or as no nick is
      left that is allowed, gives the attempt up, or sends one more nick, in place of the last. */
  lemma RefusedExactly(s: State, m: Refusal)
    requires |m.params| >= 2
    ensures var t, refused, why := Refused(s, m), RefusedNick(m, s.regNick), m.params[|m.params| - 1];
            var configured := m.command == Erroneous && EqualFold(refused, s.configNick);
            var last := s.regTries >= 10;
            var bare := |Base(refused)| <= 1;
            var cut := m.command != Erroneous && |refused| < |s.regNick|;
            if configured then t == s.(stopped := Some(NotAllowed(refused, why)))
            else if last || (cut && bare) then t == s.(regTries := s.regTries + 1, gaveUp := Some(NoneFree(why)))
            else if m.command == Erroneous && bare then t == s.(regTries := s.regTries + 1, stopped := Some(NoneAllowed(why)))
            else
              && |t.sent| == |s.sent| + 1 && t.sent[..|s.sent|] == s.sent && t.sent[|s.sent|] == t.regNick
              && t == s.(regTries := s.regTries + 1, regNick := t.regNick, sent := t.sent)
              && (m.command == Erroneous ==> |t.regNick| == |Base(refused)| && t.regNick[..|t.regNick| - 1] == refused[..|t.regNick| - 1])
              && (cut ==> |t.regNick| == |refused|)
              && (m.command != Erroneous && !cut ==> t.regNick == refused + "_")
  {}

  /** So a whole attempt whose server finds every nick in use, and takes any length, sends me_, me__ and so on, ten
      times, and then gives up. */
  lemma {:induction false} TenInUse(s: State, ms: seq<Refusal>)
    requires |ms| + s.regTries <= 10 && Honest(s, ms, |s.regNick| + |ms|)
    requires forall i :: 0 <= i < |ms| ==> ms[i].command != Erroneous
    ensures var t := RefusedAll(s, ms);
            && t.regTries == s.regTries + |ms| && t.stopped == s.stopped && t.gaveUp == s.gaveUp
            && t.sent == s.sent + seq(|ms|, i requires 0 <= i < |ms| => s.regNick + Underscores(i + 1))
    decreases |ms|
  {
    if ms != [] {
      var t := Refused(s, ms[0]);
      assert ms[0].command != Erroneous;
      assert t.regNick == s.regNick + "_";
      TenInUse(t, ms[1..]);
      forall i: nat ensures s.regNick + "_" + Underscores(i) == s.regNick + Underscores(i + 1) {
        assert Underscores(i + 1) == "_" + Underscores(i);
      }
      assert s.regNick + "_" == s.regNick + Underscores(1);
    }
  }
}
