/**
  The audit log (src/audit-logger.ts): one line appended per call, the file cut back to the last
  maxEntries lines on every hundredth write, and `readEntries` paging through it, newest first.
  Calls are taken one after the other, in jsonl format.
*/
module AuditLog {
  import opened Common
  import Paging

  const PRUNE_INTERVAL := 100

  // ---------------------------------------------------------------------
  // The file as text
  // ---------------------------------------------------------------------

  /** What `trim` strips: the white space and line terminators of ECMA-262, section 12.2 and 12.3. */
  predicate IsSpace(c: char) {
    var code := c as int;
    code in {0x20, 0xA0, 0x1680, 0x2028, 0x2029, 0x202F, 0x205F, 0x3000, 0xFEFF}
      || 9 <= code <= 13 || 0x2000 <= code <= 0x200A
  }

  predicate Blank(s: string) {
    forall i :: 0 <= i < |s| ==> IsSpace(s[i])
  }

  function Keep(line: string): seq<string> {
    if Blank(line) then [] else [line]
  }

  /** `split("\n")` without the blank pieces, current being the piece under way. */
  function Pieces(current: string, s: string): seq<string>
    decreases |s|
  {
    if s == "" then Keep(current)
    else if s[0] == '\n' then Keep(current) + Pieces("", s[1..])
    else Pieces(current + [s[0]], s[1..])
  }

  function Lines(content: string): seq<string> {
    Pieces("", content)
  }

  predicate Closed(content: string) {
    content == "" || content[|content| - 1] == '\n'
  }

  /** A line of the log: not blank, no line break. */
  predicate IsLine(line: string) {
    !Blank(line) && '\n' !in line
  }

  predicate AreLines(lines: seq<string>) {
    forall i :: 0 <= i < |lines| ==> IsLine(lines[i])
  }

  /** `join("\n") + "\n"`. */
  function Joined(lines: seq<string>): string {
    if lines == [] then "" else lines[0] + "\n" + Joined(lines[1..])
  }

  lemma {:induction false} PiecesOfLine(current: string, line: string, rest: string)
    requires '\n' !in line
    ensures Pieces(current, line + "\n" + rest) == Keep(current + line) + Pieces("", rest)
    decreases |line|
  {
    if line == "" {
      assert line + "\n" + rest == "\n" + rest && current + line == current;
    } else {
      var s := line + "\n" + rest;
      assert s[0] == line[0] && s[1..] == line[1..] + "\n" + rest;
      assert current + [line[0]] + line[1..] == current + line;
      PiecesOfLine(current + [line[0]], line[1..], rest);
    }
  }

  lemma {:induction false} PiecesSplit(current: string, s: string, rest: string)
    requires s != "" && Closed(s)
    ensures Pieces(current, s + rest) == Pieces(current, s) + Pieces("", rest)
    decreases |s|
  {
    hide Keep;
    assert (s + rest)[0] == s[0] && (s + rest)[1..] == s[1..] + rest;
    if |s| == 1 {
      assert s[1..] + rest == rest && s[1..] == "";
      NoPiece();
    } else if s[0] == '\n' {
      PiecesSplit("", s[1..], rest);
      Assoc(Keep(current), Pieces("", s[1..]), Pieces("", rest));
    } else {
      PiecesSplit(current + [s[0]], s[1..], rest);
    }
  }

  lemma NoPiece()
    ensures Keep("") == []
  {
  }

  /** An appended line is read back as one more line. */
  lemma AppendedLine(content: string, line: string)
    requires Closed(content) && IsLine(line)
    ensures Closed(content + (line + "\n")) && Lines(content + (line + "\n")) == Lines(content) + [line]
  {
    assert line + "\n" + "" == line + "\n" && "" + line == line;
    PiecesOfLine("", line, "");
    NoPiece();
    if content == "" {
      assert content + (line + "\n") == line + "\n";
    } else {
      PiecesSplit("", content, line + "\n");
    }
  }

  /** What is split and joined again is read back unchanged. */
  lemma {:induction false} JoinedLines(lines: seq<string>)
    requires AreLines(lines)
    ensures Closed(Joined(lines)) && Lines(Joined(lines)) == lines
  {
    hide Pieces, Blank;
    if lines == [] {
      NothingSplit();
    } else {
      JoinedLines(lines[1..]);
      PiecesOfLine("", lines[0], Joined(lines[1..]));
      assert "" + lines[0] == lines[0];
    }
  }

  lemma NothingSplit()
    ensures Lines("") == []
  {
  }

  lemma {:induction false} PiecesAreLines(current: string, s: string)
    requires '\n' !in current
    ensures AreLines(Pieces(current, s))
    decreases |s|
  {
    if s != "" {
      if s[0] == '\n' {
        PiecesAreLines("", s[1..]);
      } else {
        PiecesAreLines(current + [s[0]], s[1..]);
      }
    }
  }

  // ---------------------------------------------------------------------
  // Logging and pruning
  // ---------------------------------------------------------------------

  /** One call of `log`: its line, whether the append works, and whether the prune, if due, works. */
  datatype Attempt = Attempt(line: string, appends: bool, prunes: bool)

  datatype Log = Log(lines: seq<string>, writes: nat)

  function Last(lines: seq<string>, n: nat): seq<string> {
    if |lines| <= n then lines else lines[|lines| - n..]
  }

  function Logged(log: Log, a: Attempt, maxEntries: int): Log {
    if !a.appends then log
    else
      var lines := log.lines + [a.line];
      if maxEntries <= 0 then Log(lines, log.writes)
      else if log.writes + 1 < PRUNE_INTERVAL then Log(lines, log.writes + 1)
      else Log(if a.prunes then Last(lines, maxEntries) else lines, 0)
  }

  class AuditLogger {
    const maxEntries: int
    var writesSincePrune: nat
    var content: string

    ghost predicate Valid()
      reads this
    {
      Closed(content)
    }

    ghost function Model(): Log
      reads this
    {
      Log(Lines(content), writesSincePrune)
    }

    /** A logger started on an existing file. */
    constructor (entries: int, existing: string)
      requires Closed(existing)
      ensures Valid() && maxEntries == entries && Model() == Log(Lines(existing), 0)
    {
      maxEntries, writesSincePrune, content := entries, 0, existing;
    }

    method Record(a: Attempt)
      requires Valid() && IsLine(a.line)
      modifies this
      ensures Valid() && Model() == Logged(old(Model()), a, maxEntries)
    {
      if !a.appends {
        return;
      }
      AppendedLine(content, a.line);
      content := content + (a.line + "\n");
      if maxEntries > 0 {
        writesSincePrune := writesSincePrune + 1;
        if writesSincePrune >= PRUNE_INTERVAL {
          writesSincePrune := 0;
          PruneIfNeeded(a.prunes);
        }
      }
    }

    method PruneIfNeeded(works: bool)
      requires Valid() && maxEntries > 0
      modifies this`content
      ensures Valid() && Lines(content) == if works then Last(old(Lines(content)), maxEntries) else old(Lines(content))
    {
      if !works {
        return;
      }
      var lines := Lines(content);
      PiecesAreLines("", content);
      if |lines| > maxEntries {
        var pruned := lines[|lines| - maxEntries..];
        JoinedLines(pruned);
        content := Joined(pruned);
      }
    }
  }

  /** The log after the attempts of as, one by one. */
  function After(log: Log, attempts: seq<Attempt>, maxEntries: int): Log {
    if attempts == [] then log
    else Logged(After(log, attempts[..|attempts| - 1], maxEntries), attempts[|attempts| - 1], maxEntries)
  }

  /** All lines ever written. */
  function History(initial: seq<string>, attempts: seq<Attempt>): seq<string> {
    if attempts == [] then initial
    else
      var a := attempts[|attempts| - 1];
      History(initial, attempts[..|attempts| - 1]) + if a.appends then [a.line] else []
  }

  predicate Suffix(s: seq<string>, all: seq<string>) {
    |s| <= |all| && s == all[|all| - |s|..]
  }

  lemma SuffixAppends(s: seq<string>, all: seq<string>, line: string)
    requires Suffix(s, all)
    ensures Suffix(s + [line], all + [line])
    ensures s == all ==> s + [line] == all + [line]
  {
  }

  lemma SuffixOfSuffix(s: seq<string>, all: seq<string>, n: nat)
    requires Suffix(s, all)
    ensures Suffix(Last(s, n), all)
  {
  }

  /** A suffix of all that holds at least its last maxEntries lines. */
  predicate Recent(log: Log, all: seq<string>, maxEntries: nat) {
    Suffix(log.lines, all) && (|log.lines| >= maxEntries || log.lines == all) && log.writes < PRUNE_INTERVAL
  }

  lemma RecentStep(log: Log, all: seq<string>, a: Attempt, maxEntries: nat)
    requires maxEntries > 0 && Recent(log, all, maxEntries)
    ensures Recent(Logged(log, a, maxEntries), all + if a.appends then [a.line] else [], maxEntries)
  {
    if a.appends {
      SuffixAppends(log.lines, all, a.line);
      SuffixOfSuffix(log.lines + [a.line], all + [a.line], maxEntries);
    } else {
      assert all + [] == all;
    }
  }

  /** After any run the file is a suffix of everything written, initial file included, and holds at least
      the last maxEntries lines of it. */
  lemma {:induction false} FileIsRecent(initial: seq<string>, attempts: seq<Attempt>, maxEntries: nat)
    requires maxEntries > 0
    ensures Recent(After(Log(initial, 0), attempts, maxEntries), History(initial, attempts), maxEntries)
  {
    hide Logged, Recent;
    if attempts == [] {
      StartIsRecent(initial, maxEntries);
    } else {
      var before := attempts[..|attempts| - 1];
      FileIsRecent(initial, before, maxEntries);
      RecentStep(After(Log(initial, 0), before, maxEntries), History(initial, before),
        attempts[|attempts| - 1], maxEntries);
    }
  }

  lemma StartIsRecent(initial: seq<string>, maxEntries: nat)
    ensures Recent(Log(initial, 0), initial, maxEntries)
  {
    assert initial == initial[0..];
  }

  /** While the prunes work, the file never exceeds the larger of maxEntries and the initial file by more
      than 99 lines. */
  lemma {:induction false} FileIsBounded(initial: seq<string>, attempts: seq<Attempt>, maxEntries: nat)
    requires maxEntries > 0 && forall i :: 0 <= i < |attempts| ==> attempts[i].prunes
    ensures var log := After(Log(initial, 0), attempts, maxEntries);
      && log.writes < 100
      && |log.lines| <= log.writes + (if |initial| < maxEntries then maxEntries else |initial|)
      && |log.lines| <= 99 + (if |initial| < maxEntries then maxEntries else |initial|)
  {
    if attempts != [] {
      FileIsBounded(initial, attempts[..|attempts| - 1], maxEntries);
    }
  }

  /** How many appends of the run worked. */
  function Appended(attempts: seq<Attempt>): nat {
    if attempts == [] then 0
    else Appended(attempts[..|attempts| - 1]) + if attempts[|attempts| - 1].appends then 1 else 0
  }

  lemma {:induction false} WritesAreCounted(initial: seq<string>, attempts: seq<Attempt>, maxEntries: nat)
    requires maxEntries > 0
    ensures After(Log(initial, 0), attempts, maxEntries).writes == Appended(attempts) % 100
  {
    hide Logged;
    if attempts != [] {
      var before := attempts[..|attempts| - 1];
      WritesAreCounted(initial, before, maxEntries);
      WritesStep(After(Log(initial, 0), before, maxEntries), attempts[|attempts| - 1], maxEntries);
      NextHundred(Appended(before));
    }
  }

  lemma WritesStep(log: Log, a: Attempt, maxEntries: nat)
    requires maxEntries > 0 && log.writes < 100
    ensures Logged(log, a, maxEntries).writes ==
      if !a.appends then log.writes else if log.writes == 99 then 0 else log.writes + 1
  {
  }

  /** Over every run, exactly each hundredth append is followed by a prune: every other one adds its line and
      drops none, and a hundredth whose prune works leaves the last maxEntries lines. */
  lemma EveryHundredth(initial: seq<string>, attempts: seq<Attempt>, maxEntries: nat)
    requires maxEntries > 0 && attempts != []
    ensures var a := attempts[|attempts| - 1];
      var before := After(Log(initial, 0), attempts[..|attempts| - 1], maxEntries).lines;
      var after := After(Log(initial, 0), attempts, maxEntries).lines;
      && (!a.appends ==> after == before)
      && (a.appends && !(Appended(attempts) % 100 == 0 && a.prunes) ==> after == before + [a.line])
      && (a.appends && Appended(attempts) % 100 == 0 && a.prunes ==>
            && |after| == (if |before| + 1 < maxEntries then |before| + 1 else maxEntries)
            && Suffix(after, before + [a.line]))
  {
    hide Logged, Suffix;
    var before := attempts[..|attempts| - 1];
    WritesAreCounted(initial, before, maxEntries);
    NextHundred(Appended(before));
    HundredthStep(After(Log(initial, 0), before, maxEntries), attempts[|attempts| - 1], maxEntries);
  }

  lemma NextHundred(n: nat)
    ensures (n + 1) % 100 == if n % 100 == 99 then 0 else n % 100 + 1
  {
  }

  lemma HundredthStep(log: Log, a: Attempt, maxEntries: nat)
    requires maxEntries > 0 && log.writes < 100
    ensures var after := Logged(log, a, maxEntries).lines;
      && (!a.appends ==> after == log.lines)
      && (a.appends && !(log.writes == 99 && a.prunes) ==> after == log.lines + [a.line])
      && (a.appends && log.writes == 99 && a.prunes ==>
            && |after| == (if |log.lines| + 1 < maxEntries then |log.lines| + 1 else maxEntries)
            && Suffix(after, log.lines + [a.line]))
  {
  }

  /** With maxEntries 0 nothing is ever dropped. */
  lemma {:induction false} NeverPruned(initial: seq<string>, attempts: seq<Attempt>, maxEntries: int)
    requires maxEntries <= 0
    ensures After(Log(initial, 0), attempts, maxEntries) == Log(History(initial, attempts), 0)
  {
    if attempts != [] {
      NeverPruned(initial, attempts[..|attempts| - 1], maxEntries);
      assert History(initial, attempts[..|attempts| - 1]) + [] == History(initial, attempts[..|attempts| - 1]);
    }
  }

  // ---------------------------------------------------------------------
  // Reading back
  // ---------------------------------------------------------------------

  datatype Entry = Entry(connection: string, status: string, text: string)

  /** An absent or empty string filters nothing. */
  datatype Filter = Filter(connection: Option<string>, status: Option<string>)

  predicate Passes(e: Entry, f: Filter) {
    && (f.connection.Some? && f.connection.value != "" ==> e.connection == f.connection.value)
    && (f.status.Some? && f.status.value != "" ==> e.status == f.status.value)
  }

  /** An entry passes when its connection and its status are the ones asked for, where any are. */
  lemma PassesMeans(e: Entry, f: Filter)
    ensures Passes(e, f) <==>
      && (f.connection in {None, Some("")} || f.connection == Some(e.connection))
      && (f.status in {None, Some("")} || f.status == Some(e.status))
  {
  }

  /** What is read back passes the filter, and was parsed from a line. */
  lemma {:induction false} NewestPass(lines: seq<string>, parse: string -> Option<Entry>, f: Filter, k: nat)
    requires k < |Newest(lines, parse, f)|
    ensures var e := Newest(lines, parse, f)[k];
      && (exists i :: 0 <= i < |lines| && parse(lines[i]) == Some(e))
      && (f.connection in {None, Some("")} || e.connection == f.connection.value)
      && (f.status in {None, Some("")} || e.status == f.status.value)
  {
    var last := parse(lines[|lines| - 1]);
    var n := if last.Some? && Passes(last.value, f) then 1 else 0;
    if k >= n {
      NewestPass(lines[..|lines| - 1], parse, f, k - n);
      assert Newest(lines, parse, f)[k] == Newest(lines[..|lines| - 1], parse, f)[k - n];
    }
  }

  function Parsed(lines: seq<string>, parse: string -> Option<Entry>): seq<Entry> {
    if lines == [] then []
    else
      var e := parse(lines[|lines| - 1]);
      Parsed(lines[..|lines| - 1], parse) + if e.Some? then [e.value] else []
  }

  function Reversed(entries: seq<Entry>): seq<Entry> {
    if entries == [] then [] else [entries[|entries| - 1]] + Reversed(entries[..|entries| - 1])
  }

  function Filtered(entries: seq<Entry>, f: Filter): seq<Entry> {
    if entries == [] then [] else (if Passes(entries[0], f) then [entries[0]] else []) + Filtered(entries[1..], f)
  }

  /** The entries that pass, newest first: the last line decides the first entry. */
  function Newest(lines: seq<string>, parse: string -> Option<Entry>, f: Filter): seq<Entry> {
    if lines == [] then []
    else
      var e := parse(lines[|lines| - 1]);
      (if e.Some? && Passes(e.value, f) then [e.value] else []) + Newest(lines[..|lines| - 1], parse, f)
  }

  lemma {:induction false} ReversedAppend(entries: seq<Entry>, e: Entry)
    ensures Reversed(entries + [e]) == [e] + Reversed(entries)
  {
    assert (entries + [e])[..|entries|] == entries;
  }

  lemma {:induction false} ChainIsNewest(lines: seq<string>, parse: string -> Option<Entry>, f: Filter)
    ensures Filtered(Reversed(Parsed(lines, parse)), f) == Newest(lines, parse, f)
  {
    if lines != [] {
      var before := lines[..|lines| - 1];
      var e := parse(lines[|lines| - 1]);
      ChainIsNewest(before, parse, f);
      if e.Some? {
        ReversedAppend(Parsed(before, parse), e.value);
        assert ([e.value] + Reversed(Parsed(before, parse)))[1..] == Reversed(Parsed(before, parse));
      } else {
        assert Parsed(before, parse) + [] == Parsed(before, parse);
      }
    }
  }

  lemma {:induction false} FilterTwice(entries: seq<Entry>, f: Filter)
    ensures Filtered(Filtered(entries, Filter(f.connection, None)), Filter(None, f.status)) == Filtered(entries, f)
  {
    if entries != [] {
      FilterTwice(entries[1..], f);
      var once := Filtered(entries[1..], Filter(f.connection, None));
      assert ([entries[0]] + once)[1..] == once;
      assert [] + once == once;
    }
  }

  lemma {:induction false} FilterNothing(entries: seq<Entry>, f: Filter)
    requires (f.connection.Some? ==> f.connection.value == "") && (f.status.Some? ==> f.status.value == "")
    ensures Filtered(entries, f) == entries
  {
    if entries != [] {
      FilterNothing(entries[1..], f);
    }
  }

  method ReadEntries(content: string, parse: string -> Option<Entry>, f: Filter, offset: int,
          limit: int) returns (page: seq<Entry>)
    ensures page == Paging.JsSlice(Newest(Lines(content), parse, f), offset, offset + limit)
  {
    hide Filtered, Newest, Reversed, Parsed, Lines, Paging.JsSlice;
    var entries := Reversed(Parsed(Lines(content), parse));
    ChainIsNewest(Lines(content), parse, f);
    FilterTwice(entries, f);
    if f.connection.Some? && f.connection.value != "" {
      entries := Filtered(entries, Filter(f.connection, None));
    } else {
      FilterNothing(entries, Filter(f.connection, None));
    }
    if f.status.Some? && f.status.value != "" {
      entries := Filtered(entries, Filter(None, f.status));
    } else {
      FilterNothing(entries, Filter(None, f.status));
    }
    page := Paging.JsSlice(entries, offset, offset + limit);
  }

  /** Dropping old lines only shortens what is read back. */
  lemma {:induction false} NewestOfSuffix(s: seq<string>, all: seq<string>, parse: string -> Option<Entry>, f: Filter)
    requires Suffix(s, all)
    ensures Newest(s, parse, f) <= Newest(all, parse, f)
    decreases |s|
  {
    if s != [] {
      var before, allBefore := s[..|s| - 1], all[..|all| - 1];
      assert Suffix(before, allBefore) && s[|s| - 1] == all[|all| - 1];
      NewestOfSuffix(before, allBefore, parse, f);
    }
  }

  /** Over any run, whatever was pruned, reading back shows the entries written, newest first, and at most
      older ones are missing: none while no more than maxEntries lines were ever written, and never one from
      the last maxEntries lines. */
  lemma ReadsBackHistory(initial: seq<string>, attempts: seq<Attempt>, maxEntries: nat,
          parse: string -> Option<Entry>, f: Filter)
    requires maxEntries > 0
    ensures var all := History(initial, attempts);
      var shown := Newest(After(Log(initial, 0), attempts, maxEntries).lines, parse, f);
      && shown <= Newest(all, parse, f)
      && (|all| <= maxEntries ==> shown == Newest(all, parse, f))
      && (|all| > maxEntries ==> Newest(all[|all| - maxEntries..], parse, f) <= shown)
  {
    hide Newest, History, After;
    FileIsRecent(initial, attempts, maxEntries);
    var all := History(initial, attempts);
    var lines := After(Log(initial, 0), attempts, maxEntries).lines;
    NewestOfSuffix(lines, all, parse, f);
    if |all| > maxEntries {
      assert Suffix(all[|all| - maxEntries..], lines);
      NewestOfSuffix(all[|all| - maxEntries..], lines, parse, f);
    }
  }

  /** The first n pages of limit entries, one after the other. */
  function Pages(entries: seq<Entry>, limit: nat, n: nat): seq<Entry> {
    if n == 0 then []
    else
      var offset := Paging.Start(n - 1, limit);
      Pages(entries, limit, n - 1) + Paging.JsSlice(entries, offset, offset + limit)
  }

  /** Consecutive pages put together are the whole list, up to where they reach. */
  lemma {:induction false} PagesConcatenate(entries: seq<Entry>, limit: nat, n: nat)
    ensures var end := Paging.Start(n, limit);
      Pages(entries, limit, n) == if |entries| <= end then entries else entries[..end]
  {
    hide Paging.JsSlice, Paging.Start;
    if n == 0 {
      Paging.StartZero(limit);
    } else {
      Paging.StartNext(n, limit);
      PagesConcatenate(entries, limit, n - 1);
      NextSlice(entries, Paging.Start(n - 1, limit), limit);
    }
  }

  lemma NextSlice(entries: seq<Entry>, offset: nat, limit: nat)
    ensures (if |entries| <= offset then entries else entries[..offset])
      + Paging.JsSlice(entries, offset, offset + limit)
      == if |entries| <= offset + limit then entries else entries[..offset + limit]
  {
  }
}
