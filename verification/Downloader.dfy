/** The file cache of a judge worker: its maps, and its methods as they run under the mutex. */
module Downloader {
  import opened Decimal

  type Key = string
  type Name = string

  // ---------------------------------------------------------------- names

  function EncodeFileName(category: string, name: string): Key {
    category + name + category
  }

  function FileName(n: nat): Name {
    "ppj_" + FormatInt(n) + ".txt"
  }

  lemma FileNameInjective(m: nat, n: nat)
    requires FileName(m) == FileName(n)
    ensures m == n
  {
    assert FileName(m)[4..|FileName(m)| - 4] == Digits(m);
    assert FileName(n)[4..|FileName(n)| - 4] == Digits(n);
    DigitsInjective(m, n);
  }

  const CATEGORIES: seq<string> := [
    "submission_code", "testcase_inout", "contest_description", "problem_statement",
    "problem_related", "problem_checker", "submission_msg"]

  /** No category in use is a proper prefix of another. */
  lemma CategoriesPrefixFree(c: string, d: string)
    requires c in CATEGORIES && d in CATEGORIES && c <= d
    ensures c == d
  {
    assert c[0] == d[0];
    assert |c| > 11 && |d| > 11 && c[8] == d[8] && c[11] == d[11];
  }

  /** Two files of the categories in use never share a cache key. */
  lemma KeysDistinct(category: string, name: string, category': string, name': string)
    requires category in CATEGORIES && category' in CATEGORIES
    requires EncodeFileName(category, name) == EncodeFileName(category', name')
    ensures category == category' && name == name'
  {
    var key := EncodeFileName(category, name);
    assert key[..|category|] == category && key[..|category'|] == category';
    if |category| <= |category'| {
      assert category <= category';
      CategoriesPrefixFree(category, category');
    } else {
      assert category' <= category;
      CategoriesPrefixFree(category', category);
    }
    assert key[|category|..|key| - |category|] == name;
    assert key[|category|..|key| - |category|] == name';
  }

  /** With a category that is a prefix of another, keys do collide. */
  lemma KeysCollide()
    ensures EncodeFileName("a", "axa") == EncodeFileName("aa", "x")
  {
  }

  // ---------------------------------------------------------------- the maps

  datatype Cache = Cache(file: map<Key, Name>, stamp: map<Key, int>, counter: map<Key, int>, made: nat)

  const EMPTY_CACHE := Cache(map[], map[], map[], 0)

  const MINUTE := 60_000_000_000

  function Hit(c: Cache, k: Key, now: int): Cache {
    if k in c.counter then c.(counter := c.counter[k := c.counter[k] + 1], stamp := c.stamp[k := now]) else c
  }

  function Installed(c: Cache, k: Key, name: Name, now: int): Cache {
    if k in c.counter then c
    else c.(counter := c.counter[k := 0], file := c.file[k := name], stamp := c.stamp[k := now])
  }

  function Pinned(c: Cache, k: Key, delta: int): Cache {
    if k in c.counter then c.(counter := c.counter[k := c.counter[k] + delta]) else c
  }

  function Expired(c: Cache, now: int, expire: int): set<Key> {
    set k | k in c.stamp && k in c.counter && now - c.stamp[k] > expire && c.counter[k] == 0
  }

  function Without(c: Cache, keys: set<Key>): Cache {
    c.(counter := c.counter - keys, file := c.file - keys, stamp := c.stamp - keys)
  }

  predicate SameKeys(c: Cache) {
    c.file.Keys == c.stamp.Keys == c.counter.Keys
  }

  class PPDownloader {
    var encodedNameToFileName: map<Key, Name>
    var lastUpdateTime: map<Key, int>
    var counter: map<Key, int>
    var fileNameCounter: nat

    ghost function View(): Cache
      reads this
    {
      Cache(encodedNameToFileName, lastUpdateTime, counter, fileNameCounter)
    }

    constructor ()
      ensures View() == EMPTY_CACHE
    {
      encodedNameToFileName, lastUpdateTime, counter, fileNameCounter := map[], map[], map[], 0;
    }

    method NewFileName() returns (name: Name)
      modifies this`fileNameCounter
      ensures View() == old(View()).(made := old(fileNameCounter) + 1)
      ensures name == FileName(fileNameCounter) == "ppj_" + FormatInt(old(fileNameCounter) + 1) + ".txt"
    {
      fileNameCounter := fileNameCounter + 1;
      name := "ppj_" + FormatInt(fileNameCounter) + ".txt";
    }

    /** First critical section of Download: a hit counts at once, before any locker exists. */
    method LookUp(category: string, name: string, now: int) returns (path: Name)
      requires SameKeys(View())
      modifies this`counter, this`lastUpdateTime
      ensures View() == Hit(old(View()), EncodeFileName(category, name), now)
      ensures var enc := EncodeFileName(category, name);
        path == if enc in old(counter) then encodedNameToFileName[enc] else ""
    {
      var enc := EncodeFileName(category, name);
      path := "";
      if enc in counter {
        counter := counter[enc := counter[enc] + 1];
        assert enc in encodedNameToFileName.Keys;
        path := encodedNameToFileName[enc];
        lastUpdateTime := lastUpdateTime[enc := now];
      }
    }

    /** Second critical section of Download: the first writer installs its file, a later one drops its own. */
    method Install(category: string, name: string, file: Name, now: int) returns (path: Name, dropped: bool)
      requires SameKeys(View())
      modifies this`counter, this`encodedNameToFileName, this`lastUpdateTime
      ensures View() == Installed(old(View()), EncodeFileName(category, name), file, now)
      ensures dropped <==> EncodeFileName(category, name) in old(counter)
      ensures EncodeFileName(category, name) in encodedNameToFileName &&
        path == encodedNameToFileName[EncodeFileName(category, name)]
    {
      var enc := EncodeFileName(category, name);
      path := file;
      dropped := enc in counter;
      if enc !in counter {
        counter := counter[enc := 0];
        encodedNameToFileName := encodedNameToFileName[enc := path];
        lastUpdateTime := lastUpdateTime[enc := now];
      } else {
        assert enc in encodedNameToFileName.Keys;
        path := encodedNameToFileName[enc];
      }
    }

    method NewLocker(category: string, name: string) returns (locker: PPLocker?)
      modifies this`counter
      ensures View() == Pinned(old(View()), EncodeFileName(category, name), 1)
      ensures locker != null <==> EncodeFileName(category, name) in old(counter)
      ensures locker != null ==>
        fresh(locker) && locker.status == 0 && locker.key == EncodeFileName(category, name) && locker.ppd == this
    {
      var enc := EncodeFileName(category, name);
      if enc in counter {
        counter := counter[enc := counter[enc] + 1];
        locker := new PPLocker(this, enc);
      } else {
        locker := null;
      }
    }

    method OpenFile(category: string, name: string) returns (file: Name)
      requires SameKeys(View())
      modifies this`counter
      ensures View() == Pinned(old(View()), EncodeFileName(category, name), 1)
      ensures var enc := EncodeFileName(category, name);
        file == if enc in encodedNameToFileName then encodedNameToFileName[enc] else ""
    {
      var enc := EncodeFileName(category, name);
      file := "";
      if enc in encodedNameToFileName {
        file := encodedNameToFileName[enc];
        assert enc in counter.Keys;
        counter := counter[enc := counter[enc] + 1];
      }
    }

    method Targets(now: int, expire: int) returns (targets: seq<Key>)
      requires SameKeys(View())
      ensures forall k :: k in targets <==> k in Expired(View(), now, expire)
      ensures forall i, j :: 0 <= i < j < |targets| ==> targets[i] != targets[j]
    {
      targets := [];
      var rest := lastUpdateTime.Keys;
      while rest != {}
        invariant rest <= lastUpdateTime.Keys
        invariant forall k :: k in targets <==> k in Expired(View(), now, expire) && k !in rest
        invariant forall i, j :: 0 <= i < j < |targets| ==> targets[i] != targets[j]
        decreases |rest|
      {
        var k :| k in rest;
        rest := rest - {k};
        assert k in lastUpdateTime.Keys && k in counter.Keys;
        if now - lastUpdateTime[k] > expire {
          if counter[k] == 0 {
            targets := targets + [k];
          }
        }
      }
    }

    method Evict(targets: seq<Key>, ghost keys: set<Key>) returns (fileNames: seq<Name>)
      requires forall k :: k in targets <==> k in keys
      requires forall i, j :: 0 <= i < j < |targets| ==> targets[i] != targets[j]
      requires keys <= encodedNameToFileName.Keys
      modifies this`counter, this`encodedNameToFileName, this`lastUpdateTime
      ensures View() == Without(old(View()), keys)
      ensures |fileNames| == |targets|
      ensures forall j :: 0 <= j < |targets| ==>
        targets[j] in old(encodedNameToFileName) && fileNames[j] == old(encodedNameToFileName)[targets[j]]
    {
      ghost var before := View();
      fileNames := [];
      ghost var done: set<Key> := {};
      for i := 0 to |targets|
        invariant View() == Without(before, done)
        invariant |fileNames| == i
        invariant done <= keys && forall j :: 0 <= j < |targets| ==> (targets[j] in done <==> j < i)
        invariant forall j :: 0 <= j < i ==> targets[j] in before.file && fileNames[j] == before.file[targets[j]]
      {
        var k := targets[i];
        assert k in targets && k in before.file.Keys;
        fileNames := fileNames + [encodedNameToFileName[k]];
        counter := counter - {k};
        encodedNameToFileName := encodedNameToFileName - {k};
        lastUpdateTime := lastUpdateTime - {k};
        WithoutTwice(before, done, {k});
        done := done + {k};
      }
      assert done == keys by {
        assert forall k :: k in keys ==> k in targets;
      }
    }

    /** The sweeper's critical section: unused keys past their time are dropped, their files returned. */
    method Sweep(now: int, expire: int) returns (fileNames: seq<Name>)
      requires SameKeys(View())
      modifies this`counter, this`encodedNameToFileName, this`lastUpdateTime
      ensures View() == Without(old(View()), Expired(old(View()), now, expire))
      ensures |fileNames| == |Expired(old(View()), now, expire)|
      ensures forall k :: k in Expired(old(View()), now, expire) ==>
        k in old(encodedNameToFileName) && old(encodedNameToFileName)[k] in fileNames
      ensures forall n :: n in fileNames ==>
        exists k :: k in Expired(old(View()), now, expire) && old(encodedNameToFileName)[k] == n
    {
      ghost var keys := Expired(View(), now, expire);
      assert forall k :: k in keys ==> k in lastUpdateTime.Keys;
      var targets := Targets(now, expire);
      DistinctSize(targets, keys);
      fileNames := Evict(targets, keys);
    }
  }

  lemma {:induction false} DistinctSize(s: seq<Key>, keys: set<Key>)
    requires forall i, j :: 0 <= i < j < |s| ==> s[i] != s[j]
    requires forall k :: k in s <==> k in keys
    ensures |keys| == |s|
    decreases |s|
  {
    if s != [] {
      var init, last := s[..|s| - 1], s[|s| - 1];
      assert last in s;
      forall k ensures k in init <==> k in keys - {last} {
        assert k in s <==> k in init || k == last;
      }
      DistinctSize(init, keys - {last});
    } else {
      assert keys == {};
    }
  }

  lemma WithoutTwice(c: Cache, keys: set<Key>, more: set<Key>)
    ensures Without(Without(c, keys), more) == Without(c, keys + more)
  {
    assert c.counter - keys - more == c.counter - (keys + more);
    assert c.file - keys - more == c.file - (keys + more);
    assert c.stamp - keys - more == c.stamp - (keys + more);
  }

  /** A pin on one key. Unlock may be called any number of times; only the first call counts. */
  class PPLocker {
    const ppd: PPDownloader
    const key: Key
    var status: nat

    constructor (ppd: PPDownloader, key: Key)
      ensures this.ppd == ppd && this.key == key && status == 0
    {
      this.ppd, this.key, status := ppd, key, 0;
    }

    method Unlock()
      requires status == 0 ==> key in ppd.counter
      modifies this, ppd`counter
      ensures status == old(status) + 1
      ensures ppd.View() == if old(status) == 0 then Pinned(old(ppd.View()), key, -1) else old(ppd.View())
    {
      status := status + 1;
      if status == 1 {
        ppd.counter := ppd.counter[key := ppd.counter[key] - 1];
      }
    }
  }
}
