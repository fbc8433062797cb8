/** Saved passwords and consent: two stores that no transaction spans. Every write
    may fail, may fail after it took effect, and may be the last thing the process
    does. internal/application/device.go. */
module Credentials {
  import opened Text

  // The destination and account a password was saved for.
  datatype Binding = Binding(address: Str, account: Str, iface: Str)

  datatype Row = Row(target: Str, name: Str, binding: Binding, credentialStored: bool, autoDeliver: bool)

  datatype State = State(rows: map<Str, Row>, secrets: map<Str, Str>, savedFor: map<Str, Binding>)

  datatype Check = Verified | Unverified | Rejected | Ended

  // What an operation asks of its surroundings, and whether the answer was good.
  datatype Kind = Judge | Put | Erase | Write | Drop | ReadClock | Retire

  datatype Call = Call(kind: Kind, ok: bool)

  const MAX_CREDENTIAL_BYTES := 1024

  /** The first `n` calls of a plan, of which only the last may have failed. */
  function Answers(plan: seq<Kind>, n: nat, last: bool): seq<Call>
    requires n <= |plan|
  {
    seq(n, i requires 0 <= i < n => Call(plan[i], i + 1 < n || last))
  }

  /** The calls between `before` and `after` are the plan up to its first failure, and
      `ok` says that there was none. */
  ghost predicate Made(before: seq<Call>, after: seq<Call>, plan: seq<Kind>, ok: bool) {
    if ok then after == before + Answers(plan, |plan|, true)
    else exists n :: 0 < n <= |plan| && after == before + Answers(plan, n, false)
  }

  /** The same, with one attempt to take the secret back after a failure past the
      first call. */
  ghost predicate Compensated(before: seq<Call>, after: seq<Call>, plan: seq<Kind>) {
    exists n, erased :: 1 < n <= |plan| && after == before + Answers(plan, n, false) + [Call(Erase, erased)]
  }

  const STAMPING := [ReadClock, Write]
  const CLEARING := [Erase, ReadClock, Write]

  const SAVING := [Put, ReadClock, Write]

  function UpdatePlan(changed: bool): seq<Kind> {
    if changed then [Judge] + CLEARING + [Retire, ReadClock, Write] else [Judge, ReadClock, Write]
  }

  lemma NothingAsked(calls: seq<Call>, plan: seq<Kind>)
    ensures calls == calls + Answers(plan, 0, true)
  {
  }

  /** One more call of the plan. */
  lemma Asked(before: seq<Call>, after: seq<Call>, plan: seq<Kind>, n: nat, ok: bool)
    requires n < |plan| && after == before + Answers(plan, n, true) + [Call(plan[n], ok)]
    ensures after == before + Answers(plan, n + 1, ok)
    ensures !ok || n + 1 == |plan| ==> Made(before, after, plan, ok)
  {
    assert Answers(plan, n, true) + [Call(plan[n], ok)] == Answers(plan, n + 1, ok);
  }

  lemma AllAsked(before: seq<Call>, after: seq<Call>, plan: seq<Kind>)
    requires Made(before, after, plan, true)
    ensures after == before + Answers(plan, |plan|, true)
  {
  }

  /** An operation inside another one. */
  lemma AskedInside(before: seq<Call>, mid: seq<Call>, after: seq<Call>, plan: seq<Kind>, n: nat, inner: seq<Kind>,
      ok: bool)
    requires n + |inner| <= |plan| && plan[n..n + |inner|] == inner
    requires mid == before + Answers(plan, n, true) && Made(mid, after, inner, ok)
    ensures ok ==> after == before + Answers(plan, n + |inner|, true)
    ensures !ok || n + |inner| == |plan| ==> Made(before, after, plan, ok)
  {
    assert forall i :: 0 <= i < |inner| ==> inner[i] == plan[n + i];
    if ok {
      assert Answers(plan, n, true) + Answers(inner, |inner|, true) == Answers(plan, n + |inner|, true);
    } else {
      var k :| 0 < k <= |inner| && after == mid + Answers(inner, k, false);
      assert Answers(plan, n, true) + Answers(inner, k, false) == Answers(plan, n + k, false);
    }
  }

  /** A failure of a saving past its first call, and the attempt to take it back. */
  lemma TakenBack(before: seq<Call>, mid: seq<Call>, after: seq<Call>, n: nat, erased: bool)
    requires 1 < n <= |SAVING| && mid == before + Answers(SAVING, n, false) && after == mid + [Call(Erase, erased)]
    ensures Compensated(before, after, SAVING)
  {
  }

  function Cleared(row: Row, disableAuto: bool): Row {
    row.(credentialStored := false, autoDeliver := row.autoDeliver && !disableAuto)
  }

  /** A secret belongs to an existing device and was saved for the connection that
      device has now. */
  ghost predicate Bound(s: State) {
    s.savedFor.Keys == s.secrets.Keys &&
    forall id :: id in s.secrets ==> id in s.rows && s.savedFor[id] == s.rows[id].binding
  }

  /** Consent without a password exists only where no password is needed. */
  ghost predicate Consented(needs: set<Str>, s: State) {
    forall id :: id in s.rows && s.rows[id].autoDeliver && s.rows[id].target in needs ==> s.rows[id].credentialStored
  }

  ghost predicate Safe(needs: set<Str>, s: State) {
    Bound(s) && Consented(needs, s)
  }

  ghost predicate AlwaysSafe(needs: set<Str>, trace: seq<State>) {
    forall i :: 0 <= i < |trace| ==> Safe(needs, trace[i])
  }

  lemma SafeSoFar(needs: set<Str>, trace: seq<State>, s: State)
    requires AlwaysSafe(needs, trace) && Safe(needs, s)
    ensures AlwaysSafe(needs, trace + [s])
  {
    hide Safe;
  }

  lemma PutIsSafe(needs: set<Str>, s: State, id: Str, text: Str, binding: Binding)
    requires Safe(needs, s) && id in s.rows && s.rows[id].binding == binding
    ensures Safe(needs, s.(secrets := s.secrets[id := text], savedFor := s.savedFor[id := binding]))
  {
    var t := s.(secrets := s.secrets[id := text], savedFor := s.savedFor[id := binding]);
    assert t.savedFor.Keys == s.savedFor.Keys + {id} && t.secrets.Keys == s.secrets.Keys + {id};
  }

  class DeviceService {
    // Targets whose deployer takes a credential.
    const needs: set<Str>
    var rows: map<Str, Row>
    var secrets: map<Str, Str>
    ghost var savedFor: map<Str, Binding>
    // The state after every write so far: the places where the process can die.
    ghost var trace: seq<State>
    // Everything the operations asked so far.
    ghost var calls: seq<Call>

    ghost function Now(): State
      reads this`rows, this`secrets, this`savedFor
    {
      State(rows, secrets, savedFor)
    }

    /** Everything about other devices. */
    ghost function Others(id: Str): State
      reads this`rows, this`secrets, this`savedFor
    {
      State(rows - {id}, secrets - {id}, savedFor - {id})
    }

    ghost predicate Valid()
      reads this`rows, this`secrets, this`savedFor, this`trace
    {
      Safe(needs, Now()) && AlwaysSafe(needs, trace)
    }

    /** The row agrees with the secret that is stored, and has no consent it lacks. */
    ghost predicate Fits(id: Str, row: Row)
      reads this
    {
      (id in savedFor ==> savedFor[id] == row.binding) &&
      (row.autoDeliver && row.target in needs ==> row.credentialStored)
    }

    constructor (needs: set<Str>)
      ensures Valid() && this.needs == needs && rows == map[] && secrets == map[]
    {
      this.needs := needs;
      rows, secrets, savedFor, trace, calls := map[], map[], map[], [], [];
    }

    // ------------------------------------------------------------ the stores

    /** An error does not say whether the write took effect. */
    method PutSecret(id: Str, text: Str, ghost binding: Binding) returns (ok: bool)
      modifies this`secrets, this`savedFor, this`trace, this`calls
      ensures Others(id) == old(Others(id))
      ensures trace == old(trace) + [Now()] && calls == old(calls) + [Call(Put, ok)]
      ensures Now() == old(Now()).(secrets := old(secrets)[id := text], savedFor := old(savedFor)[id := binding]) ||
        (!ok && Now() == old(Now()))
      ensures old(Valid()) && id in rows && rows[id].binding == binding ==> Valid()
    {
      hide Safe, AlwaysSafe;
      if Valid() && id in rows && rows[id].binding == binding {
        PutIsSafe(needs, Now(), id, text, binding);
        SafeSoFar(needs, trace, Now());
        SafeSoFar(needs, trace, Now().(secrets := secrets[id := text], savedFor := savedFor[id := binding]));
      }
      ok := *;
      var applied: bool := *;
      if ok || applied {
        secrets, savedFor := secrets[id := text], savedFor[id := binding];
      }
      trace, calls := trace + [Now()], calls + [Call(Put, ok)];
    }

    /** Deleting an absent secret succeeds. */
    method DeleteSecret(id: Str) returns (ok: bool)
      modifies this`secrets, this`savedFor, this`trace, this`calls
      ensures Others(id) == old(Others(id))
      ensures trace == old(trace) + [Now()] && calls == old(calls) + [Call(Erase, ok)]
      ensures Now() == old(Now()).(secrets := old(secrets) - {id}, savedFor := old(savedFor) - {id}) ||
        (!ok && Now() == old(Now()))
      ensures old(Valid()) ==> Valid()
    {
      ok := *;
      var applied: bool := *;
      if ok || applied {
        secrets, savedFor := secrets - {id}, savedFor - {id};
      }
      trace, calls := trace + [Now()], calls + [Call(Erase, ok)];
    }

    method WriteRow(id: Str, row: Row) returns (ok: bool)
      modifies this`rows, this`trace, this`calls
      ensures Others(id) == old(Others(id))
      ensures trace == old(trace) + [Now()] && calls == old(calls) + [Call(Write, ok)]
      ensures Now() == old(Now()).(rows := old(rows)[id := row]) || (!ok && Now() == old(Now()))
      ensures old(Valid() && Fits(id, row)) ==> Valid()
    {
      ok := *;
      var applied: bool := *;
      if ok || applied {
        rows := rows[id := row];
      }
      trace, calls := trace + [Now()], calls + [Call(Write, ok)];
    }

    method DeleteRow(id: Str) returns (ok: bool)
      modifies this`rows, this`trace, this`calls
      ensures Others(id) == old(Others(id))
      ensures trace == old(trace) + [Now()] && calls == old(calls) + [Call(Drop, ok)]
      ensures Now() == old(Now()).(rows := old(rows) - {id}) || (!ok && Now() == old(Now()))
      ensures old(Valid()) && id !in secrets ==> Valid()
    {
      ok := *;
      var applied: bool := *;
      if ok || applied {
        rows := rows - {id};
      }
      trace, calls := trace + [Now()], calls + [Call(Drop, ok)];
    }

    lemma ConsentNow(id: Str)
      requires Valid() && id in rows
      ensures rows[id].autoDeliver && rows[id].target in needs ==> rows[id].credentialStored
    {
    }

    lemma FitsNow(id: Str, row: Row)
      requires Valid() && id in rows && (row.binding == rows[id].binding || id !in secrets)
      requires row.autoDeliver && row.target in needs ==> row.credentialStored
      ensures Fits(id, row)
    {
    }

    /** The clock, the check of a connection, and the retirement of what a device
        owned on its old surface. */
    method Ask(kind: Kind) returns (ok: bool)
      modifies this`calls
      ensures calls == old(calls) + [Call(kind, ok)]
    {
      ok := *;
      calls := calls + [Call(kind, ok)];
    }

    // ------------------------------------------------------------ the operations

    /** The end of most operations: the clock, then the row. */
    method WriteStamped(id: Str, row: Row) returns (ok: bool)
      requires Valid() && id in rows && Fits(id, row)
      modifies this`rows, this`trace, this`calls
      ensures Valid() && Others(id) == old(Others(id)) && old(trace) <= trace
      ensures Made(old(calls), calls, STAMPING, ok)
      ensures rows == old(rows)[id := row] || (!ok && rows == old(rows))
    {
      hide Others, Made;
      NothingAsked(calls, STAMPING);
      var clock := Ask(ReadClock);
      Asked(old(calls), calls, STAMPING, 0, clock);
      if !clock {
        return false;
      }
      ok := WriteRow(id, row);
      Asked(old(calls), calls, STAMPING, 1, ok);
    }

    /** `RegisterDevice`: an identity that no row has. */
    method RegisterDevice(id: Str, target: Str, name: Str, binding: Binding) returns (ok: bool)
      requires Valid() && id !in rows
      modifies this`rows, this`trace, this`calls
      ensures Valid() && Made(old(calls), calls, [Write], ok)
      ensures ok ==> rows == old(rows)[id := Row(target, name, binding, false, false)]
    {
      NothingAsked(calls, [Write]);
      ok := WriteRow(id, Row(target, name, binding, false, false));
      Asked(old(calls), calls, [Write], 0, ok);
    }

    /** `clearCredential`: the secret goes first. */
    method ClearCredential(id: Str, row: Row, disableAuto: bool) returns (r: (bool, Row))
      requires Valid() && id in rows && rows[id] == row && (row.target in needs ==> disableAuto)
      modifies this
      ensures Valid() && rows.Keys == old(rows).Keys
      ensures Others(id) == old(Others(id))
      ensures Made(old(calls), calls, CLEARING, r.0)
      ensures rows == old(rows) || rows == old(rows)[id := Cleared(row, disableAuto)]
      ensures r.0 ==>
        r.1 == Cleared(row, disableAuto) && rows == old(rows)[id := r.1] && secrets == old(secrets) - {id}
      ensures old(trace) <= trace
    {
      hide Others, Made;
      NothingAsked(calls, CLEARING);
      var deleted := DeleteSecret(id);
      Asked(old(calls), calls, CLEARING, 0, deleted);
      if !deleted {
        return (false, row);
      }
      var cleared := row.(credentialStored := false);
      if disableAuto {
        cleared := cleared.(autoDeliver := false);
      }
      ghost var erased := calls;
      var written := WriteStamped(id, cleared);
      AskedInside(old(calls), erased, calls, CLEARING, 1, STAMPING, written);
      return (written, cleared);
    }

    /** `UpdateDevice`. A changed connection revokes the password and the consent
        before the new connection is stored; if that last write fails the old
        connection may still be visible, but neither opted in nor secret-backed. */
    method UpdateDevice(id: Str, name: Str, binding: Binding) returns (ok: bool)
      requires Valid()
      modifies this
      ensures Valid() && rows.Keys == old(rows).Keys
      ensures Others(id) == old(Others(id))
      ensures id !in old(rows) ==> !ok && calls == old(calls) && Now() == old(Now())
      ensures id in old(rows) ==> Made(old(calls), calls, UpdatePlan(old(rows)[id].binding != binding), ok)
      ensures ok && old(rows)[id].binding == binding ==>
        rows == old(rows)[id := old(rows)[id].(name := name)] && secrets == old(secrets)
      ensures ok && old(rows)[id].binding != binding ==>
        && rows == old(rows)[id := Row(old(rows)[id].target, name, binding, false, false)]
        && secrets == old(secrets) - {id}
      ensures id in rows && rows[id].binding != old(rows)[id].binding ==>
        id !in secrets && !rows[id].credentialStored && !rows[id].autoDeliver
    {
      hide Others, Made, Answers, Valid, Fits;
      if id !in rows {
        return false;
      }
      var current := rows[id];
      ConsentNow(id);
      ghost var plan := UpdatePlan(current.binding != binding);
      NothingAsked(calls, plan);
      var usable := Ask(Judge);
      Asked(old(calls), calls, plan, 0, usable);
      if !usable {
        return false;
      }
      if current.binding != binding {
        ghost var judged := calls;
        var revoked := ClearCredential(id, current, true);
        assert plan[1..1 + |CLEARING|] == CLEARING;
        AskedInside(old(calls), judged, calls, plan, 1, CLEARING, revoked.0);
        if !revoked.0 {
          return false;
        }
        current := revoked.1;
        var retired := Ask(Retire);
        Asked(old(calls), calls, plan, 4, retired);
        if !retired {
          return false;
        }
      }
      ghost var ready := calls;
      FitsNow(id, current.(name := name, binding := binding));
      ok := WriteStamped(id, current.(name := name, binding := binding));
      assert plan[|plan| - 2..] == STAMPING;
      AskedInside(old(calls), ready, calls, plan, |plan| - 2, STAMPING, ok);
    }

    /** `ForgetDevice`: the secret goes first, whatever its flag says. */
    method ForgetDevice(id: Str) returns (ok: bool)
      requires Valid()
      modifies this
      ensures Valid()
      ensures Others(id) == old(Others(id))
      ensures id !in old(rows) ==> !ok && calls == old(calls) && Now() == old(Now())
      ensures id in old(rows) ==> Made(old(calls), calls, [Erase, Retire, Drop], ok)
      ensures ok ==> rows == old(rows) - {id} && secrets == old(secrets) - {id}
      ensures id in old(rows) && id !in rows ==> id !in secrets
    {
      hide Others, Made;
      if id !in rows {
        return false;
      }
      ghost var plan := [Erase, Retire, Drop];
      NothingAsked(calls, plan);
      var deleted := DeleteSecret(id);
      Asked(old(calls), calls, plan, 0, deleted);
      if !deleted {
        return false;
      }
      var retired := Ask(Retire);
      Asked(old(calls), calls, plan, 1, retired);
      if !retired {
        return false;
      }
      ok := DeleteRow(id);
      Asked(old(calls), calls, plan, 2, ok);
    }

    /** Whether a password may be saved at all, with the answer the device gave to the
        read-only login. */
    predicate Savable(id: Str, text: Str, deployable: bool, available: bool, check: Check)
      reads this`rows
    {
      && id in rows && deployable && rows[id].target in needs
      && 0 < |text| <= MAX_CREDENTIAL_BYTES && available && (check.Verified? || check.Unverified?)
    }

    /** `SaveCredential`. A password the device refuses, or one nobody waits for, writes
        nothing; any other one is saved when every call succeeds. */
    method SaveCredential(id: Str, text: Str, deployable: bool, available: bool, check: Check) returns (ok: bool)
      requires Valid()
      modifies this
      ensures Valid() && rows.Keys == old(rows).Keys
      ensures Others(id) == old(Others(id))
      ensures !old(Savable(id, text, deployable, available, check)) ==>
        !ok && calls == old(calls) && trace == old(trace) && Now() == old(Now())
      ensures old(Savable(id, text, deployable, available, check)) ==>
        var plan := if old(rows)[id].credentialStored then [Put] else SAVING;
        Made(old(calls), calls, plan, ok) || (!ok && Compensated(old(calls), calls, plan))
      ensures ok ==>
        rows == old(rows)[id := old(rows)[id].(credentialStored := true)] && secrets == old(secrets)[id := text]
      ensures forall x :: x in rows ==>
        rows[x] == old(rows)[x] || (x == id && rows[x] == old(rows)[x].(credentialStored := true))
    {
      hide Others, Made, Compensated, Answers, Valid, Fits;
      if id !in rows || !deployable || rows[id].target !in needs {
        return false;
      }
      var row := rows[id];
      if text == [] || |text| > MAX_CREDENTIAL_BYTES || !available {
        return false;
      }
      if check.Rejected? || check.Ended? {
        return false;
      }
      ghost var plan := if row.credentialStored then [Put] else SAVING;
      NothingAsked(calls, plan);
      var put := PutSecret(id, text, row.binding);
      Asked(old(calls), calls, plan, 0, put);
      if !put {
        return false;
      }
      if row.credentialStored {
        assert rows == rows[id := row];
        return true;
      }
      var clock := Ask(ReadClock);
      Asked(old(calls), calls, plan, 1, clock);
      if !clock {
        Compensate(id, old(calls), 2);
        return false;
      }
      FitsNow(id, row.(credentialStored := true));
      ok := WriteRow(id, row.(credentialStored := true));
      Asked(old(calls), calls, plan, 2, ok);
      if !ok {
        Compensate(id, old(calls), 3);
      }
    }

    /** `compensateStoredSecret`. */
    method Compensate(id: Str, ghost before: seq<Call>, ghost n: nat)
      requires Valid() && 1 < n <= |SAVING| && calls == before + Answers(SAVING, n, false)
      modifies this`secrets, this`savedFor, this`trace, this`calls
      ensures Valid() && Compensated(before, calls, SAVING)
      ensures Others(id) == old(Others(id))
      ensures secrets == old(secrets) - {id} || secrets == old(secrets)
    {
      hide Others;
      var deleted := DeleteSecret(id);
      TakenBack(before, old(calls), calls, n, deleted);
    }

    /** `RemoveCredential`: consent stays where the target needs no password. */
    method RemoveCredential(id: Str) returns (ok: bool)
      requires Valid()
      modifies this
      ensures Valid() && rows.Keys == old(rows).Keys
      ensures Others(id) == old(Others(id))
      ensures id !in old(rows) ==> !ok && calls == old(calls) && Now() == old(Now())
      ensures id in old(rows) ==> Made(old(calls), calls, CLEARING, ok)
      ensures ok ==>
        var row := old(rows)[id];
        && secrets == old(secrets) - {id}
        && rows == old(rows)[id :=
          row.(credentialStored := false, autoDeliver := row.autoDeliver && row.target !in needs)]
    {
      hide Others, Made;
      if id !in rows {
        return false;
      }
      var r := ClearCredential(id, rows[id], rows[id].target in needs);
      return r.0;
    }

    /** `EnableAutoDelivery`. */
    method EnableAutoDelivery(id: Str, text: Str, deployable: bool, available: bool, check: Check) returns (ok: bool)
      requires Valid()
      modifies this
      ensures Valid() && rows.Keys == old(rows).Keys
      ensures Others(id) == old(Others(id))
      ensures id !in old(rows) || !deployable ==> !ok && calls == old(calls) && Now() == old(Now())
      ensures id in old(rows) && deployable ==>
        Enabled(old(calls), calls, old(rows)[id], text, old(Savable(id, text, deployable, available, check)), ok)
      ensures ok ==>
        var row := old(rows)[id];
        && rows == old(rows)[id :=
          row.(autoDeliver := true, credentialStored := row.credentialStored || row.target in needs)]
        && (row.target in needs && text == [] ==> row.credentialStored && secrets == old(secrets))
        && (row.target in needs && text != [] ==> secrets == old(secrets)[id := text])
        && (row.target !in needs ==> secrets == old(secrets) - {id})
    {
      hide Others, Made, Compensated, Answers, Valid, Fits;
      if id !in rows || !deployable {
        return false;
      }
      if rows[id].target in needs {
        if text != [] {
          var saved := SaveCredential(id, text, deployable, available, check);
          if !saved {
            return false;
          }
          AllAsked(old(calls), calls, if old(rows)[id].credentialStored then [Put] else SAVING);
        }
        if !rows[id].credentialStored {
          return false;
        }
      } else {
        var deleted := DeleteSecret(id);
        if !deleted {
          return false;
        }
      }
      FitsNow(id, rows[id].(autoDeliver := true));
      ok := WriteStamped(id, rows[id].(autoDeliver := true));
    }

    /** What turning consent on may ask: a password that was sent is saved first, an
        obsolete one is erased where none is needed, and then the row is written. */
    ghost predicate Enabled(before: seq<Call>, after: seq<Call>, row: Row, text: Str, savable: bool, ok: bool) {
      if row.target !in needs then
        (!ok && after == before + [Call(Erase, false)]) || Made(before + [Call(Erase, true)], after, STAMPING, ok)
      else if text == [] then
        if row.credentialStored then Made(before, after, STAMPING, ok) else !ok && after == before
      else if !savable then !ok && after == before
      else
        var plan := if row.credentialStored then [Put] else SAVING;
        || (!ok && (Made(before, after, plan, false) || Compensated(before, after, plan)))
        || Made(before + Answers(plan, |plan|, true), after, STAMPING, ok)
    }

    /** `DisableAutoDelivery` keeps the password. */
    method DisableAutoDelivery(id: Str) returns (ok: bool)
      requires Valid()
      modifies this
      ensures Valid() && secrets == old(secrets)
      ensures Others(id) == old(Others(id))
      ensures id !in old(rows) ==> !ok && calls == old(calls) && Now() == old(Now())
      ensures id in old(rows) ==> Made(old(calls), calls, STAMPING, ok)
      ensures ok ==> id in old(rows) && rows == old(rows)[id := old(rows)[id].(autoDeliver := false)]
    {
      hide Others, Made;
      if id !in rows {
        return false;
      }
      ok := WriteStamped(id, rows[id].(autoDeliver := false));
    }

    /** `DeviceCredential`, the only reader: it answers exactly with a recorded password
        that the store gives out, which was saved for the connection the device has
        now, or with nothing where nothing is needed. */
    method DeviceCredential(id: Str, readable: bool) returns (r: (bool, Str))
      requires Valid()
      ensures r.0 <==>
        id in rows && (rows[id].target !in needs || (rows[id].credentialStored && readable && id in secrets))
      ensures r.0 && rows[id].target in needs ==> secrets[id] == r.1 && savedFor[id] == rows[id].binding
      ensures !r.0 || rows[id].target !in needs ==> r.1 == []
    {
      if id !in rows {
        return (false, []);
      }
      if rows[id].target !in needs {
        return (true, []);
      }
      if !rows[id].credentialStored {
        return (false, []);
      }
      if !readable || id !in secrets {
        return (false, []);
      }
      return (true, secrets[id]);
    }
  }

  /** Why saving a password and changing a connection must not interleave: a
      password put after the connection moved is safe exactly when it did not
      really move. */
  lemma LatePasswordIsSafeIff(needs: set<Str>, s: State, id: Str, text: Str, read: Binding)
    requires Safe(needs, s) && id in s.rows
    ensures Safe(needs, s.(secrets := s.secrets[id := text], savedFor := s.savedFor[id := read])) <==>
      read == s.rows[id].binding
  {
    var t := s.(secrets := s.secrets[id := text], savedFor := s.savedFor[id := read]);
    assert id in t.secrets && t.savedFor[id] == read;
  }
}
