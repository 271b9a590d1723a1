/** The client-side queue simulation: a position and a slots-left figure made
    up once per browser session and calendar day, memoised in
    `sessionStorage`. */
module QueueEstimate {
  import opened Web

  datatype QueueInfo = QueueInfo(next: int, left: int)

  /** What `sessionStorage.getItem(key)` can hold for a key: a saved pair, an
      empty string, or text `JSON.parse` rejects. */
  datatype Entry = Saved(info: QueueInfo) | EmptyText | Unreadable

  /** `Missing`: `typeof sessionStorage === 'undefined'`. `Blocked`: reading it
      throws. `Available`: readable; `writable` says whether `setItem` succeeds. */
  datatype SessionStorage =
    | Missing
    | Blocked
    | Available(entries: map<string, Entry>, writable: bool)

  /** `NEXT_PUBLIC_DAILY_SLOT_LIMIT` when unset. */
  const DefaultDailyLimit: int := 30

  /** The sessionStorage key of a day's pair. */
  function CacheKey(today: string): (k: string)
    ensures |k| == |today| + 9 && k[..9] == "pr-queue-" && k[9..] == today
  {
    "pr-queue-" + today
  }

  /** Different days are memoised under different keys. */
  lemma CacheKeyInjective(a: string, b: string)
    ensures CacheKey(a) == CacheKey(b) <==> a == b
  {
    if CacheKey(a) == CacheKey(b) {
      assert a == CacheKey(a)[9..] == CacheKey(b)[9..] == b;
    }
  }

  function Max(a: int, b: int): int {
    if a >= b then a else b
  }

  /** `Math.floor(Math.random() * 10) + 4` for a draw `u` of `Math.random()`. */
  function Position(u: real): (n: int)
    requires 0.0 <= u < 1.0
    ensures 4 <= n <= 13
  {
    (u * 10.0).Floor + 4
  }

  /** A newly made pair: the position, and the slots left clamped at zero. */
  function Fresh(u: real, dailyLimit: int): (q: QueueInfo)
    requires 0.0 <= u < 1.0
    ensures 4 <= q.next <= 13
    ensures q.left >= 0 && q.left >= dailyLimit - q.next
    ensures q.left == 0 || q.left == dailyLimit - q.next
  {
    var next := Position(u);
    QueueInfo(next, Max(0, dailyLimit - next))
  }

  /** What readable storage holds under today's key. */
  function Stored(storage: SessionStorage, today: string): Option<Entry> {
    if storage.Available? && CacheKey(today) in storage.entries
    then Some(storage.entries[CacheKey(today)]) else None
  }

  datatype Loaded = Loaded(info: Option<QueueInfo>, storage: SessionStorage)

  /** The mount effect of the dialog. `today` is `new Date().toDateString()`,
      `u` the draw of `Math.random()`; any thrown error leaves the estimate
      absent (None) instead of failing the dialog. */
  function Load(storage: SessionStorage, today: string, u: real, dailyLimit: int): (r: Loaded)
    requires 0.0 <= u < 1.0
    // an existing entry is returned unchanged and nothing is written
    ensures Stored(storage, today).Some? && Stored(storage, today).value.Saved? ==>
              r == Loaded(Some(Stored(storage, today).value.info), storage)
    // an unparseable entry or unreadable storage leaves the estimate absent
    ensures storage.Blocked? ==> r == Loaded(None, storage)
    ensures Stored(storage, today) == Some(Unreadable) ==> r == Loaded(None, storage)
    // otherwise a fresh pair is made and stored under today's key alone
    ensures storage.Available? && (Stored(storage, today).None? || Stored(storage, today) == Some(EmptyText)) ==>
              if storage.writable then
                r == Loaded(Some(Fresh(u, dailyLimit)),
                            Available(storage.entries[CacheKey(today) := Saved(Fresh(u, dailyLimit))], true))
              else r == Loaded(None, storage)
    // without sessionStorage the pair is shown but cannot be remembered
    ensures storage.Missing? ==> r == Loaded(Some(Fresh(u, dailyLimit)), Missing)
  {
    match storage
    case Missing => Loaded(Some(Fresh(u, dailyLimit)), Missing)
    case Blocked => Loaded(None, storage)
    case Available(entries, writable) =>
      var key := CacheKey(today);
      if key in entries && entries[key].Saved? then Loaded(Some(entries[key].info), storage)
      else if key in entries && entries[key].Unreadable? then Loaded(None, storage)
      else if writable then
        var q := Fresh(u, dailyLimit);
        Loaded(Some(q), Available(entries[key := Saved(q)], true))
      else Loaded(None, storage)
  }

  /** Memoisation: once a pair is shown from readable storage, every later load
      on the same day returns that pair, whatever the next random draw or
      limit, and writes nothing. */
  lemma LoadIdempotent(storage: SessionStorage, today: string, u: real, dailyLimit: int,
                       u2: real, dailyLimit2: int)
    requires 0.0 <= u < 1.0 && 0.0 <= u2 < 1.0
    requires storage.Available?
    ensures var first := Load(storage, today, u, dailyLimit);
            first.info.Some? ==> Load(first.storage, today, u2, dailyLimit2) == first
  {
  }

  /** Loading touches at most today's entry. */
  lemma LoadTouchesOnlyToday(storage: SessionStorage, today: string, u: real, dailyLimit: int)
    requires 0.0 <= u < 1.0
    requires storage.Available?
    ensures var after := Load(storage, today, u, dailyLimit).storage;
            && after.Available?
            && after.entries.Keys == storage.entries.Keys + (if after == storage then {} else {CacheKey(today)})
            && forall k :: k in storage.entries && k != CacheKey(today) ==> after.entries[k] == storage.entries[k]
  {
  }

  /** "Slots left today" in the form (the shown `left` is recomputed from
      `next`, not read from the pair); None renders as a dash. */
  function SlotsLeft(info: Option<QueueInfo>, dailyLimit: int): (r: Option<int>)
    ensures r.Some? <==> info.Some?
    ensures r.Some? ==> r.value >= 0 && r.value >= dailyLimit - info.value.next
    ensures r.Some? ==> r.value == 0 || r.value == dailyLimit - info.value.next
  {
    match info
    case None => None
    case Some(q) => Some(Max(0, dailyLimit - q.next))
  }

  /** For a pair made by this code the recomputed figure is the stored one. */
  lemma SlotsLeftMatchesFresh(u: real, dailyLimit: int)
    requires 0.0 <= u < 1.0
    ensures SlotsLeft(Some(Fresh(u, dailyLimit)), dailyLimit) == Some(Fresh(u, dailyLimit).left)
  {
  }
}
