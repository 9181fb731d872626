/** The per-simulator pidfile (util/pidfile.rs): who owns a simulator, as text in a shared file. */
module Pidfile {
  import opened Text

  const U32_MAX: nat := 0xFFFF_FFFF
  const I32_MAX: nat := 0x7FFF_FFFF
  const BINARY := "xcode-dap"

  /** `my_pid as i32`, which wraps. */
  function AsI32(pid: nat): int {
    if pid <= I32_MAX then pid else pid - 0x1_0000_0000
  }

  /** `parse::<i32>`: an optional sign, then digits only, within range. */
  function ParseI32(s: string): Option<int> {
    if s != "" && s[0] == '-' then
      var digits := s[1..];
      if digits != "" && AllDigits(digits) && DigitsValue(digits) <= I32_MAX + 1
      then
        var n: int := DigitsValue(digits);
        Some(-n)
      else None
    else
      match ParseUnsigned(s, I32_MAX)
      case None => None
      case Some(n) => Some(n)
  }

  /** What `signal_old` and `remove_at` read from the file; a missing or garbled file reads as nobody. */
  function ReadPid(file: Option<string>): Option<int> {
    if file.None? then None else ParseI32(Trim(file.value))
  }

  /** The ownership test of `Proxy::superseded`, which parses an unsigned number. */
  predicate StillOurs(file: Option<string>, me: nat) {
    file.Some? && ParseUnsigned(Trim(file.value), U32_MAX) == Some(me)
  }

  function PidLine(me: nat): string {
    Decimal(me) + "\n"
  }

  /** Whom `signal_old` signals: the recorded pid, unless it is init, ourselves or not a proxy. `running` gives the
      executable's file name of every live process. */
  function Victim(file: Option<string>, me: nat, running: map<int, string>): Option<int> {
    var pid := ReadPid(file);
    if pid.Some? && pid.value > 1 && pid.value != AsI32(me) && pid.value in running && running[pid.value] == BINARY
    then pid else None
  }

  function AfterRemove(file: Option<string>, me: nat): Option<string> {
    if ReadPid(file) == Some(AsI32(me)) then None else file
  }

  /** One simulator's pidfile. */
  class SimulatorPidfile {
    var file: Option<string>
    /** Every pid sent a SIGTERM through this file. */
    var signalled: seq<int>

    constructor (file: Option<string>)
      ensures this.file == file && signalled == []
    {
      this.file := file;
      signalled := [];
    }

    method SignalOld(me: nat, running: map<int, string>)
      modifies this`signalled
      ensures signalled == match Victim(file, me, running)
                           case None => old(signalled)
                           case Some(pid) => old(signalled) + [pid]
      ensures forall p: nat :: 1 < p <= 0x7FFF_FFFF && p != me && me <= 0xFFFF_FFFF && file == Some(Decimal(p) + "\n") ==>
                signalled == old(signalled) + if p in running && running[p] == "xcode-dap" then [p] else []
      ensures signalled == old(signalled)
              || exists p :: signalled == old(signalled) + [p] && p > 1 && p in running && running[p] == "xcode-dap"
    {
      VictimNamed(file, me, running);
      var pid := ReadPid(file);
      if pid.Some? {
        if pid.value > 1 && pid.value != AsI32(me) {
          if pid.value in running && running[pid.value] == BINARY {
            signalled := signalled + [pid.value];
          }
        }
      }
    }

    /** Signal the owner, then become it; `written` says whether the write succeeded, and `left` what a failed write
        leaves behind. */
    method Claim(me: nat, running: map<int, string>, written: bool, left: Option<string>) returns (ok: bool)
      requires me <= U32_MAX
      modifies this
      ensures ok == written
      ensures signalled == match Victim(old(file), me, running)
                           case None => old(signalled)
                           case Some(pid) => old(signalled) + [pid]
      ensures forall p: nat :: 1 < p <= 0x7FFF_FFFF && p != me && old(file) == Some(Decimal(p) + "\n") ==>
                signalled == old(signalled) + if p in running && running[p] == "xcode-dap" then [p] else []
      ensures file == if written then Some(PidLine(me)) else left
      ensures ok ==> StillOurs(file, me)
    {
      SignalOld(me, running);
      if written {
        file := Some(Decimal(me) + "\n");
        LineRead(me, me);
      } else {
        file := left;
      }
      ok := written;
    }

    /** Remove the file if it still names us; `removed` says whether the file system obliged. */
    method RemoveAt(me: nat, removed: bool) returns (ok: bool)
      modifies this`file
      ensures file == if removed then AfterRemove(old(file), me) else old(file)
      ensures ok <==> removed || AfterRemove(old(file), me) == old(file)
    {
      ok := true;
      if ReadPid(file) == Some(AsI32(me)) {
        if removed {
          file := None;
        } else {
          ok := false;
        }
      }
    }
  }

  // -- reading back what was written ------------------------------------------

  lemma LineTrimmed(me: nat)
    ensures Trim(PidLine(me)) == Decimal(me)
  {
    var s := PidLine(me);
    assert s[0] == Decimal(me)[0];
    TrimStartFixed(s);
    assert s[|s| - 1] == '\n' && s[..|s| - 1] == Decimal(me);
    TrimEndFixed(Decimal(me));
  }

  lemma LineParsed(me: nat)
    requires me <= U32_MAX
    ensures ParseUnsigned(Decimal(me), U32_MAX) == Some(me)
    ensures ParseI32(Decimal(me)) == if me <= I32_MAX then Some(me) else None
  {
    ParseDecimal(me, U32_MAX);
    assert IsDigit(Decimal(me)[0]);
    if me <= I32_MAX {
      ParseDecimal(me, I32_MAX);
    } else {
      DecimalValue(me);
    }
  }

  /** The two readers agree on every file a proxy wrote, short of a pid that does not fit `i32`: only its writer
      takes the line for its own, and only its writer removes it. */
  lemma LineRead(writer: nat, reader: nat)
    requires writer <= U32_MAX && reader <= U32_MAX
    ensures StillOurs(Some(PidLine(writer)), reader) <==> reader == writer
    ensures AfterRemove(Some(PidLine(writer)), reader).None? <==> reader == writer && writer <= I32_MAX
  {
    LineTrimmed(writer);
    LineParsed(writer);
  }

  /** What reads as a pid: digits behind at most one sign, blanks around them aside, of a value that fits `i32`. */
  lemma PidSpelledOut(file: Option<string>, v: int)
    ensures ReadPid(file) == Some(v)
       <==> file.Some? && -0x8000_0000 <= v <= 0x7FFF_FFFF
            && exists sign, d :: Trim(file.value) == sign + d && sign in ["", "+", "-"] && d != "" && AllDigits(d)
                                 && if sign == "-" then v + DigitsValue(d) == 0 else v == DigitsValue(d)
  {
    if file.Some? {
      SignedSpelledOut(Trim(file.value), v);
    }
    hide Trim, ParseI32, DigitsValue;
  }

  lemma SignedSpelledOut(s: string, v: int)
    ensures ParseI32(s) == Some(v)
       <==> -0x8000_0000 <= v <= 0x7FFF_FFFF
            && exists sign, d :: s == sign + d && sign in ["", "+", "-"] && d != "" && AllDigits(d)
                                 && if sign == "-" then v + DigitsValue(d) == 0 else v == DigitsValue(d)
  {
    hide DigitsValue;
    if s != "" && s[0] == '-' {
      assert s == "-" + s[1..] && !IsDigit('-');
      forall sign, d | s == sign + d && sign in ["", "+", "-"] && d != "" && AllDigits(d) ensures sign == "-" && d == s[1..] {
        assert s[0] == (sign + d)[0];
      }
    } else {
      if v >= 0 {
        NumeralSpelledOut(s, I32_MAX, v);
      }
      assert s == "" + s;
      forall sign, d | s == sign + d && sign in ["", "+", "-"] && d != "" && AllDigits(d)
        ensures (s == d || s == "+" + d) && sign != "-"
      {
        assert s[0] == (sign + d)[0];
      }
      if ParseI32(s) == Some(v) {
        var d :| (s == d || s == "+" + d) && d != "" && AllDigits(d) && DigitsValue(d) == v;
        assert s == (if s == d then "" else "+") + d;
      }
    }
  }

  /** A file goes exactly when it reads as our pid, which wraps beyond `i32`. */
  lemma RemovalSpelledOut(file: Option<string>, me: nat)
    requires me <= 0xFFFF_FFFF && file.Some?
    ensures AfterRemove(file, me)
         == if ReadPid(file) == Some(if me <= 0x7FFF_FFFF then me else me - 0x1_0000_0000) then None else file
    ensures StillOurs(file, me)
       <==> exists d :: (Trim(file.value) == d || Trim(file.value) == "+" + d)
                        && d != "" && AllDigits(d) && DigitsValue(d) == me
  {
    NumeralSpelledOut(Trim(file.value), 0xFFFF_FFFF, me);
    hide ReadPid, Trim, DigitsValue, ParseUnsigned;
  }

  /** The line of another live proxy makes that proxy the victim; of anything else under its pid, nobody. */
  lemma LineVictim(p: nat, me: nat, running: map<int, string>)
    requires 1 < p <= 0x7FFF_FFFF && p != me && me <= 0xFFFF_FFFF
    ensures Victim(Some(Decimal(p) + "\n"), me, running)
         == if p in running && running[p] == "xcode-dap" then Some(p) else None
  {
    LineTrimmed(p);
    LineParsed(p);
    hide Decimal, Trim, ParseI32;
  }

  /** Nobody else's process is ever signalled, whatever the file says. */
  lemma VictimNamed(file: Option<string>, me: nat, running: map<int, string>)
    ensures forall p: nat :: 1 < p <= 0x7FFF_FFFF && p != me && me <= 0xFFFF_FFFF && file == Some(Decimal(p) + "\n") ==>
              Victim(file, me, running) == if p in running && running[p] == "xcode-dap" then Some(p) else None
    ensures var v := Victim(file, me, running);
            v.Some? ==> v.value > 1 && v.value in running && running[v.value] == "xcode-dap"
  {
    hide Decimal, ReadPid;
    forall p: nat | 1 < p <= 0x7FFF_FFFF && p != me && me <= 0xFFFF_FFFF && file == Some(Decimal(p) + "\n")
      ensures Victim(file, me, running) == if p in running && running[p] == "xcode-dap" then Some(p) else None
    {
      LineVictim(p, me, running);
    }
  }

  /** A text that one proxy takes for its own no other proxy removes. */
  lemma OneReader(file: Option<string>, owner: nat, remover: nat)
    requires owner <= U32_MAX && remover <= U32_MAX
    requires StillOurs(file, owner) && ReadPid(file) == Some(AsI32(remover))
    ensures owner == remover
  {
    hide Trim, DigitsValue;
  }
}
