/** One pass of the silent-device watchdog: a cursor loop over Redis last_seen keys that asks the
    device service to mark idle devices SILENT. */
module Watchdog {
  import opened Common

  const SILENT_MAX_AGE: int := 15 * 60 * SECOND

  const PREFIX: string := "last_seen:"

  /** Answer of a GET on a last_seen key; the text of a value may fail to parse. */
  datatype Value = Missing | Unparsable | Seconds(unix: int)

  /** Answer of the device service's GetDevice. */
  datatype Lookup = NotFound | Found(silent: bool)

  /** Everything the loop body learns about one key when it looks: the value, the clock, the device,
      and whether the update went through. */
  datatype Probe = Probe(key: string, value: Value, now: Micros, device: Lookup, updated: bool)

  /** Answer of one SCAN: an error, or some keys (with what probing them shows) and the next cursor. */
  datatype Batch = ScanError | Keys(probes: seq<Probe>, next: nat)

  /** Redis as one pass sees it: the answer to each cursor, in the order the cursors come up. */
  predicate Scan(batches: seq<Batch>) {
    && batches != []
    && (forall i :: 0 <= i < |batches| - 1 ==> batches[i].Keys? && batches[i].next != 0)
    && (var last := batches[|batches| - 1]; last.ScanError? || last.next == 0)
  }

  function TrimPrefix(key: string): string {
    if PREFIX <= key then key[|PREFIX|..] else key
  }

  /** The device is asked to become SILENT. */
  predicate Requests(p: Probe) {
    && TrimPrefix(p.key) != ""
    && p.value.Seconds?
    && p.now - p.value.unix * SECOND > SILENT_MAX_AGE
    && p.device.Found? && !p.device.silent
  }

  /** What the watchdog does to the outside: an UpdateDeviceStatus call, or a published event. */
  datatype Effect = MarkSilent(device: string) | Announce(device: string)

  /** The update for one key, and the event if the update went through. */
  function Effects(p: Probe): seq<Effect> {
    if !Requests(p) then []
    else if p.updated then [MarkSilent(TrimPrefix(p.key)), Announce(TrimPrefix(p.key))]
    else [MarkSilent(TrimPrefix(p.key))]
  }

  /** The effects so far, after some keys were looked at ... */
  function AfterKeys(done: seq<Effect>, ps: seq<Probe>): seq<Effect> {
    if ps == [] then done else AfterKeys(done, ps[..|ps| - 1]) + Effects(ps[|ps| - 1])
  }

  /** ... and after the first `n` batches. */
  function AfterBatches(done: seq<Effect>, batches: seq<Batch>, n: nat): seq<Effect>
    requires n <= |batches|
  {
    if n == 0 then done
    else
      var before := AfterBatches(done, batches, n - 1);
      if batches[n - 1].Keys? then AfterKeys(before, batches[n - 1].probes) else before
  }

  class SilentWatchdog {
    var effects: seq<Effect>

    constructor ()
      ensures effects == []
    {
      effects := [];
    }

    method ProbeKeys(probes: seq<Probe>)
      modifies this
      ensures effects == AfterKeys(old(effects), probes)
    {
      for i := 0 to |probes|
        invariant effects == AfterKeys(old(effects), probes[..i])
      {
        assert probes[..i + 1][..i] == probes[..i];
        var p := probes[i];
        var deviceID := TrimPrefix(p.key);
        if deviceID == "" {
          continue;
        }
        if !p.value.Seconds? {
          continue;
        }
        var last := p.value.unix * SECOND;
        if p.now - last <= SILENT_MAX_AGE {
          continue;
        }
        if p.device.NotFound? || p.device.silent {
          continue;
        }
        if !p.updated {
          effects := effects + [MarkSilent(deviceID)];
          continue;
        }
        effects := effects + [MarkSilent(deviceID), Announce(deviceID)];
      }
      assert probes[..|probes|] == probes;
    }

    /** One pass. `finished` is false when a scan error cut it short. */
    method RunSilentScan(batches: seq<Batch>) returns (finished: bool)
      requires Scan(batches)
      modifies this
      ensures effects == AfterBatches(old(effects), batches, |batches|)
      ensures finished <==> batches[|batches| - 1].Keys?
    {
      var n := 0;
      var cursor := 0;
      while true
        invariant 0 <= n < |batches|
        invariant effects == AfterBatches(old(effects), batches, n)
        decreases |batches| - n
      {
        var b := batches[n];
        if b.ScanError? {
          return false;
        }
        ProbeKeys(b.probes);
        cursor := b.next;
        n := n + 1;
        if cursor == 0 {
          return true;
        }
      }
    }
  }

  /** `p` is one of the keys some batch of the pass returned. */
  predicate Seen(batches: seq<Batch>, n: nat, p: Probe)
    requires n <= |batches|
  {
    exists b :: 0 <= b < n && batches[b].Keys? && p in batches[b].probes
  }

  lemma {:induction false} AfterKeysIff(done: seq<Effect>, ps: seq<Probe>, e: Effect)
    ensures e in AfterKeys(done, ps) <==> e in done || exists p :: p in ps && e in Effects(p)
  {
    if ps != [] {
      AfterKeysIff(done, ps[..|ps| - 1], e);
      assert ps == ps[..|ps| - 1] + [ps[|ps| - 1]];
    }
  }

  /** An effect of a pass comes from a key it saw, and every key it saw has its effect. */
  lemma {:induction false} AfterBatchesIff(done: seq<Effect>, batches: seq<Batch>, n: nat, e: Effect)
    requires n <= |batches|
    ensures e in AfterBatches(done, batches, n) <==> e in done || exists p :: Seen(batches, n, p) && e in Effects(p)
  {
    if n > 0 {
      var b := batches[n - 1];
      AfterBatchesIff(done, batches, n - 1, e);
      if b.Keys? {
        AfterKeysIff(AfterBatches(done, batches, n - 1), b.probes, e);
      }
      forall p ensures Seen(batches, n, p) <==> Seen(batches, n - 1, p) || (b.Keys? && p in b.probes) {}
    }
  }

  /** SCAN's guarantee for a full pass: every key that exists throughout is returned at least once. */
  ghost predicate Covers(batches: seq<Batch>, present: set<string>) {
    forall key :: key in present ==> exists p :: Seen(batches, |batches|, p) && p.key == key
  }

  /** last_seen was more than 15 minutes old when looked at. */
  predicate Idle(p: Probe) {
    p.value.Seconds? && p.now - p.value.unix * 1_000_000 > 900_000_000
  }

  /** `key` is the last_seen key of device `d`. (A key without the prefix, which the pattern excludes, would name
      its device whole.) */
  predicate KeyFor(key: string, d: string) {
    key == "last_seen:" + d || (key == d && !("last_seen:" <= key))
  }

  lemma TrimIs(key: string, d: string)
    ensures KeyFor(key, d) <==> TrimPrefix(key) == d
  {
    assert "last_seen:" <= key ==> key == "last_seen:" + key[10..];
  }

  /** The pass asks only for known devices whose key it saw and that were idle for more than 15 minutes when
      looked at, and announces only updates that went through. */
  lemma OnlyIdleDevicesMarked(batches: seq<Batch>, d: string)
    ensures MarkSilent(d) in AfterBatches([], batches, |batches|) ==>
      d != "" && exists p :: Seen(batches, |batches|, p) && KeyFor(p.key, d) && Idle(p) && p.device == Found(false)
    ensures Announce(d) in AfterBatches([], batches, |batches|) ==>
      d != "" && exists p :: Seen(batches, |batches|, p) && KeyFor(p.key, d) && Idle(p) && p.device == Found(false) && p.updated
  {
    AfterBatchesIff([], batches, |batches|, MarkSilent(d));
    AfterBatchesIff([], batches, |batches|, Announce(d));
    forall p | Requests(p) ensures Idle(p) && p.device == Found(false) && KeyFor(p.key, TrimPrefix(p.key)) { TrimIs(p.key, TrimPrefix(p.key)); }
  }

  lemma IdleIsMarked(p: Probe, d: string)
    requires d != "" && KeyFor(p.key, d) && Idle(p) && p.device == Found(false)
    ensures MarkSilent(d) in Effects(p) && (p.updated ==> Announce(d) in Effects(p))
  {
    TrimIs(p.key, d);
    assert Effects(p)[0] == MarkSilent(d);
    assert p.updated ==> Effects(p)[1] == Announce(d);
  }

  /** When no scan error cuts the pass short, it asks for every device whose key is there throughout
      and that is idle, known and not yet SILENT whenever it is looked at, and announces it if the update goes through. */
  lemma EveryIdleDeviceMarked(batches: seq<Batch>, present: set<string>, key: string, d: string)
    requires Covers(batches, present) && key in present && KeyFor(key, d) && d != ""
    requires forall p :: Seen(batches, |batches|, p) && p.key == key ==> Idle(p) && p.device == Found(false)
    ensures MarkSilent(d) in AfterBatches([], batches, |batches|)
    ensures (forall p :: Seen(batches, |batches|, p) && p.key == key ==> p.updated) ==> Announce(d) in AfterBatches([], batches, |batches|)
  {
    AfterBatchesIff([], batches, |batches|, Announce(d));
    var p :| Seen(batches, |batches|, p) && p.key == key;
    AfterBatchesIff([], batches, |batches|, MarkSilent(d));
    IdleIsMarked(p, d);
  }
}
