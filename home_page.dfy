/** The landing page: a pool of calm phrases shown one after the other, each
    change a fade-out, a swap and a fade-in driven by two timeouts. */
module HomePage {
  import opened Wrappers

  const CalmPhrases: seq<string> := [
    "how's it going",
    "this is work in progress",
    "please leave a message",
    "no need to rush",
    "\"Good things take time\" -Deb Sofield",
    "relax...",
    "take a deep breath...",
    "it took 13.8 billion years to get you here...",
    "I can take a couple decades to make a portfolio",
    "have some chil, my friend",
    "did u know u can't actually scroll here",
    "here play a game https://y8.com"
  ]

  /** No phrase occurs twice in `pool`. */
  predicate Distinct(pool: seq<string>) {
    forall i, j :: 0 <= i < j < |pool| ==> pool[i] != pool[j]
  }

  /** The pool of calm phrases has twelve different phrases (their lengths
      already differ). */
  lemma CalmPhrasesDistinct()
    ensures |CalmPhrases| == 12 && Distinct(CalmPhrases)
  {
    assert |CalmPhrases[0]| == 14 && |CalmPhrases[1]| == 24 && |CalmPhrases[2]| == 22;
    assert |CalmPhrases[3]| == 15 && |CalmPhrases[4]| == 36 && |CalmPhrases[5]| == 8;
    assert |CalmPhrases[6]| == 21 && |CalmPhrases[7]| == 45 && |CalmPhrases[8]| == 47;
    assert |CalmPhrases[9]| == 25 && |CalmPhrases[10]| == 39 && |CalmPhrases[11]| == 31;
  }

  /** The first position at or after `k` where `pool` holds `p`, or -1. */
  function IndexFrom(pool: seq<string>, p: string, k: nat): (i: int)
    requires k <= |pool|
    ensures i == -1 || (k <= i < |pool| && pool[i] == p)
    ensures forall j :: k <= j < |pool| && (i == -1 || j < i) ==> pool[j] != p
    decreases |pool| - k
  {
    if k == |pool| then -1
    else if pool[k] == p then k
    else IndexFrom(pool, p, k + 1)
  }

  /** `i % m` for `i` from 0 to `m`: the remainder is `i` itself except
      at `m`, which wraps round to 0. */
  function Wrap(i: nat, m: nat): (r: nat)
    requires i <= m && m > 0
    ensures r < m
  {
    if i == m then 0 else i
  }

  /** `Wrap` is the remainder modulo `m`. */
  lemma WrapIsRemainder(i: nat, m: nat)
    requires i <= m && m > 0
    ensures Wrap(i, m) == i % m
  {
  }

  /** The phrase after `prev` in `pool`: the one at `indexOf(prev) + 1`,
      modulo the size of the pool. */
  function NextIn(pool: seq<string>, prev: string): (next: string)
    requires |pool| > 0
    ensures next in pool
  {
    var nextIndex := Wrap(IndexFrom(pool, prev, 0) + 1, |pool|);
    pool[nextIndex]
  }

  /** Each phrase of a pool without repeats is followed by the next one,
      and the last by the first. */
  lemma NextOfPoolPhrase(pool: seq<string>, k: nat)
    requires Distinct(pool) && k < |pool|
    ensures NextIn(pool, pool[k]) == pool[if k + 1 == |pool| then 0 else k + 1]
  {
    assert IndexFrom(pool, pool[k], 0) == k;
  }

  /** A phrase outside the pool is followed by the first one. */
  lemma NextOfStranger(pool: seq<string>, p: string)
    requires |pool| > 0
    requires forall k :: 0 <= k < |pool| ==> pool[k] != p
    ensures NextIn(pool, p) == pool[0]
  {
  }

  /** The phrase shown after `n` changes, starting from `p`. */
  function Rotate(pool: seq<string>, p: string, n: nat): string
    requires |pool| > 0
    decreases n
  {
    if n == 0 then p else Rotate(pool, NextIn(pool, p), n - 1)
  }

  /** From the `k`-th phrase of a pool without repeats, `n` changes (at most
      one round) move `n` places on round the pool. */
  lemma {:induction false} RotateAhead(pool: seq<string>, k: nat, n: nat)
    requires Distinct(pool) && k < |pool| && n <= |pool|
    ensures Rotate(pool, pool[k], n) == pool[if k + n < |pool| then k + n else k + n - |pool|]
    decreases n
  {
    if n > 0 {
      NextOfPoolPhrase(pool, k);
      RotateAhead(pool, if k + 1 == |pool| then 0 else k + 1, n - 1);
    }
  }

  /** As many changes as the pool has phrases bring any phrase back. */
  lemma FullCircle(pool: seq<string>, k: nat)
    requires Distinct(pool) && k < |pool|
    ensures Rotate(pool, pool[k], |pool|) == pool[k]
  {
    RotateAhead(pool, k, |pool|);
  }

  /** Twelve changes bring every calm phrase back, and a phrase from
      outside the pool gives way to the first one. */
  lemma CalmCycle(k: nat, p: string)
    requires k < 12
    ensures Rotate(CalmPhrases, CalmPhrases[k], 12) == CalmPhrases[k]
    ensures (forall j :: 0 <= j < 12 ==> CalmPhrases[j] != p) ==> NextIn(CalmPhrases, p) == CalmPhrases[0]
  {
    CalmPhrasesDistinct();
    FullCircle(CalmPhrases, k);
    if forall j :: 0 <= j < 12 ==> CalmPhrases[j] != p {
      NextOfStranger(CalmPhrases, p);
    }
  }

  const FadeMs: nat := 1000
  const ChangeMs: nat := 3000

  /** A pending timeout of the page: the change timer or the fade timer. */
  datatype Timeout = Change | Fade

  /** The page with the browser's queue of its pending timeouts. `timer` is
      `timerRef.current`; `pending` maps every timeout set and not yet fired
      or cleared to its kind. */
  class Home {
    const calmPhrases: seq<string>
    var phrase: string
    var visible: bool
    var timer: Option<Handle>
    var pending: map<Handle, Timeout>
    var mounted: bool

    /** At most one change timer is pending, and it is the tracked one. */
    predicate OneChangeTimer()
      reads this
    {
      forall h :: h in pending && pending[h] == Change ==> timer == Some(h)
    }

    /** Every pending timeout is the tracked one. */
    predicate AllTracked()
      reads this
    {
      forall h :: h in pending ==> timer == Some(h)
    }

    constructor()
      ensures calmPhrases == CalmPhrases && phrase == CalmPhrases[0]
      ensures visible && timer.None? && pending == map[] && !mounted && AllTracked()
    {
      calmPhrases := CalmPhrases;
      phrase := "how's it going";
      visible := true;
      timer := None;
      pending := map[];
      mounted := false;
    }

    /** `clearTimer`: cancels the tracked timeout, if any, and forgets it.
        Without one it changes nothing, so a second call is a no-op. */
    method ClearTimer()
      modifies this`timer, this`pending
      ensures timer.None?
      ensures old(timer).Some? ==> pending == old(pending) - {old(timer).value}
      ensures old(timer).None? ==> pending == old(pending)
    {
      if timer.Some? {
        pending := pending - {timer.value};
        timer := None;
      }
    }

    /** `scheduleNext`: clears first, then sets a change timer `h` (a handle
        the browser has not handed out yet) and tracks it. */
    method ScheduleNext(h: Handle)
      requires h !in pending
      modifies this`timer, this`pending
      ensures timer == Some(h)
      ensures pending == (if old(timer).Some? then old(pending) - {old(timer).value}
                          else old(pending))[h := Change]
      ensures old(OneChangeTimer()) ==> OneChangeTimer()
      ensures old(AllTracked()) ==> forall g :: g in pending && g != h ==> g == old(timer).value
    {
      ClearTimer();
      pending := pending[h := Change];
      timer := Some(h);
    }

    /** The mount effect: the first change is scheduled. */
    method Mount(h: Handle)
      requires h !in pending
      modifies this
      ensures mounted && timer == Some(h) && phrase == old(phrase) && visible == old(visible)
      ensures pending == (if old(timer).Some? then old(pending) - {old(timer).value}
                          else old(pending))[h := Change]
      ensures old(AllTracked()) ==> AllTracked()
    {
      mounted := true;
      ScheduleNext(h);
    }

    /** The change timer `h` fires: fade out and set the fade timer `f`,
        which `timerRef` does not track. */
    method ChangeFires(h: Handle, f: Handle)
      requires h in pending && pending[h] == Change && f !in pending && f != h
      requires OneChangeTimer()
      modifies this`visible, this`pending
      ensures !visible && pending == old(pending) - {h} + map[f := Fade]
      ensures OneChangeTimer()
    {
      visible := false;
      pending := (pending - {h})[f := Fade];
    }

    /** The same step with the fade timer tracked in `timerRef`, so that
        `clearTimer` can always cancel whatever is pending. */
    method ChangeFiresTracked(h: Handle, f: Handle)
      requires h in pending && pending[h] == Change && f !in pending && f != h
      requires AllTracked()
      modifies this`visible, this`pending, this`timer
      ensures !visible && pending == map[f := Fade] && timer == Some(f)
      ensures AllTracked()
    {
      visible := false;
      pending := (pending - {h})[f := Fade];
      timer := Some(f);
    }

    /** The fade timer `f` fires: the next phrase, fade in, and schedule the
        next change `h`. Nothing checks whether the page is still mounted. */
    method FadeFires(f: Handle, h: Handle)
      requires f in pending && pending[f] == Fade && h !in pending && h != f
      requires |calmPhrases| > 0
      requires OneChangeTimer()
      modifies this`phrase, this`visible, this`timer, this`pending
      ensures phrase == NextIn(calmPhrases, old(phrase)) && visible
      ensures timer == Some(h)
      ensures pending == ((old(pending) - {f})
                          - (if old(timer).Some? then {old(timer).value} else {}))[h := Change]
      ensures OneChangeTimer()
      ensures old(AllTracked()) ==> AllTracked()
    {
      phrase := NextIn(calmPhrases, phrase);
      visible := true;
      pending := pending - {f};
      ScheduleNext(h);
    }

    /** The unmount cleanup: clears the tracked timer. */
    method Unmount()
      modifies this`timer, this`pending, this`mounted
      ensures !mounted && timer.None?
      ensures pending == if old(timer).Some? then old(pending) - {old(timer).value} else old(pending)
      ensures old(AllTracked()) ==> pending == map[]
    {
      ClearTimer();
      mounted := false;
    }

    /** `handleWheel`: it stops the page from scrolling and computes a
        direction it never uses; the phrase and the timers stay as they are. */
    method Wheel(deltaX: real, deltaY: real) returns (defaultPrevented: bool)
      ensures defaultPrevented
    {
      if deltaY == 0.0 {
        var update := (if deltaX > 0.0 then 1 else 0) * -2 + 1;
      }
      defaultPrevented := true;
    }
  }

  /** Unmounting during the fade leaves the fade timer pending; when it fires
      it schedules a fresh change timer, and the cycle goes on for a page
      that is gone. */
  method LeakAfterUnmount() returns (page: Home)
    ensures !page.mounted && page.timer.Some? && page.timer.value in page.pending
    ensures page.pending[page.timer.value] == Change
  {
    page := new Home();
    page.Mount(1);
    page.ChangeFires(1, 2);
    page.Unmount();
    page.FadeFires(2, 3);
  }

  /** With the fade timer tracked, unmounting during the fade leaves
      nothing pending: the same run as `LeakAfterUnmount`, up to the
      unmount. */
  method NoLeakWhenTracked() returns (page: Home)
    ensures !page.mounted && page.pending == map[]
  {
    page := new Home();
    page.Mount(1);
    page.ChangeFiresTracked(1, 2);
    page.Unmount();
  }

  /** Something the browser or React does to the page: mount it with change
      timer `h`, fire change timer `h` (setting fade timer `f`), fire fade
      timer `f` (setting change timer `h`), or unmount it. */
  datatype Event = Mounted(h: Handle) | ChangeFired(h: Handle, f: Handle)
                 | FadeFired(f: Handle, h: Handle) | Unmounted

  /** With the fade timer tracked, every pending timeout is the tracked one
      in every state any run of events reaches, so unmounting at any point
      of the cycle leaves nothing pending. A timer fires only while it is
      pending, and a new handle is one the browser has not handed out yet;
      other events are ignored. */
  method TrackedNeverLeaks(events: seq<Event>) returns (page: Home)
    ensures !page.mounted && page.pending == map[]
  {
    page := new Home();
    for i := 0 to |events|
      invariant page.AllTracked() && page.calmPhrases == CalmPhrases
    {
      match events[i]
      case Mounted(h) =>
        if h !in page.pending {
          page.Mount(h);
        }
      case ChangeFired(h, f) =>
        if h in page.pending && page.pending[h] == Change && f !in page.pending && f != h {
          page.ChangeFiresTracked(h, f);
        }
      case FadeFired(f, h) =>
        if f in page.pending && page.pending[f] == Fade && h !in page.pending && h != f {
          page.FadeFires(f, h);
        }
      case Unmounted =>
        page.Unmount();
    }
    page.Unmount();
  }
}
