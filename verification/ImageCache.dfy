/** The image cache of testing/disks.py under faults: create_image downloads,
    converts or renames, resizes, and cleans up after an exception. */
module ImageCache {
  import opened Wrappers

  type Url = string
  /** The cached file of a url and the temporary file beside it. */
  datatype Path = Data(url: Url) | Tmp(url: Url)
  /** An image as far as it got, or bytes left by something that failed. */
  datatype Content = Image(url: Url, format: Option<string>, size: Option<string>) | Junk(id: nat)
  type Files = map<Path, Content>

  /** What create_image() is asked to make of each url. */
  datatype Catalog = Catalog(format: Url -> Option<string>, size: Url -> Option<string>)

  /** How a step goes: it succeeds, or it raises or the process is killed, with
      its target file absent or holding anything. */
  datatype Fault = Fine | Raise(left: Option<Content>) | Kill(left: Option<Content>)
  datatype Faults = Faults(download: Fault, publish: Fault, resize: Fault)
  datatype Outcome = Returned | Raised | Killed

  /** An optional argument counts when it is neither None nor empty. */
  function Truthy(o: Option<string>): Option<string> { if o == Some("") then None else o }

  /** The image a caller of create_image() wants. */
  function Full(k: Catalog, url: Url): Content {
    Image(url, Truthy(k.format(url)), Truthy(k.size(url)))
  }

  function Leave(files: Files, path: Path, left: Option<Content>): Files {
    if left.Some? then files[path := left.value] else files - {path}
  }

  function Ended(f: Fault): Outcome
    requires !f.Fine?
  {
    if f.Raise? then Raised else Killed
  }

  function Download(files: Files, url: Url, f: Fault): (Files, Outcome) {
    if f.Fine? then (files[Tmp(url) := Image(url, None, None)], Returned)
    else (Leave(files, Tmp(url), f.left), Ended(f))
  }

  /** convert_image(), or os.rename() when no format is asked for, which happens
      completely or not at all. */
  function Publish(k: Catalog, files: Files, url: Url, f: Fault): (Files, Outcome)
    requires Tmp(url) in files
  {
    var format := Truthy(k.format(url));
    if format.Some? then
      if f.Fine? then (files[Data(url) := Image(url, format, None)], Returned)
      else (Leave(files, Data(url), f.left), Ended(f))
    else
      var renamed := files[Data(url) := files[Tmp(url)]] - {Tmp(url)};
      if f.Fine? then (renamed, Returned)
      else if f.Kill? && f.left.Some? then (renamed, Killed)
      else (files, Ended(f))
  }

  function Resize(k: Catalog, files: Files, url: Url, f: Fault): (Files, Outcome)
    requires Data(url) in files && files[Data(url)].Image?
  {
    var size := Truthy(k.size(url));
    if size.None? then (files, Returned)
    else if f.Fine? then (files[Data(url) := files[Data(url)].(size := size)], Returned)
    else (Leave(files, Data(url), f.left), Ended(f))
  }

  /** The body of the try. */
  function Attempt(k: Catalog, files: Files, url: Url, f: Faults): (Files, Outcome) {
    var (files1, r1) := Download(files, url, f.download);
    if r1 != Returned then (files1, r1)
    else
      var (files2, r2) := Publish(k, files1, url, f.publish);
      if r2 != Returned then (files2, r2) else Resize(k, files2, url, f.resize)
  }

  /** create_image(). */
  function Create(k: Catalog, files: Files, url: Url, f: Faults): (Files, Outcome) {
    if Data(url) in files then (files, Returned)
    else
      var (after, r) := Attempt(k, files, url, f);
      match r
      case Returned => (after - {Tmp(url)}, Returned)
      case Raised => (after - {Data(url)} - {Tmp(url)}, Raised)
      case Killed => (after, Killed)
  }

  class Store {
    const catalog: Catalog
    var files: Files

    constructor (catalog: Catalog)
      ensures this.catalog == catalog && files == map[]
    {
      this.catalog, files := catalog, map[];
    }

    /** store.silent_remove(). */
    method SilentRemove(path: Path)
      modifies this
      ensures files == old(files) - {path}
    {
      if path in files {
        files := files - {path};
      }
    }

    /** create_image(): the try, the except that removes the image and raises
        again, and the finally. */
    method CreateImage(url: Url, f: Faults) returns (r: Outcome)
      modifies this
      ensures (files, r) == Create(catalog, old(files), url, f)
    {
      if Data(url) in files {
        return Returned;
      }
      var step := Download(files, url, f.download);
      files, r := step.0, step.1;
      if r == Returned {
        step := Publish(catalog, files, url, f.publish);
        files, r := step.0, step.1;
        if r == Returned {
          step := Resize(catalog, files, url, f.resize);
          files, r := step.0, step.1;
        }
      }
      if r == Killed {
        return;
      }
      if r == Raised {
        SilentRemove(Data(url));
      }
      SilentRemove(Tmp(url));
    }
  }

  /** Every cached file is the finished image of its url. */
  ghost predicate DataComplete(k: Catalog, files: Files) {
    forall url :: Data(url) in files ==> files[Data(url)] == Full(k, url)
  }

  ghost predicate NoNewTemporaries(was: Files, now: Files) {
    forall url :: Tmp(url) in now ==> Tmp(url) in was
  }

  predicate HasKill(f: Faults) { f.download.Kill? || f.publish.Kill? || f.resize.Kill? }

  /** A kill once the download is over. */
  predicate KilledLate(f: Faults) { f.publish.Kill? || f.resize.Kill? }

  /** Other paths than those of url hold the same. */
  ghost predicate SameElsewhere(was: Files, now: Files, url: Url) {
    forall path :: path !in {Data(url), Tmp(url)} ==>
                     (path in now <==> path in was) && (path in was ==> now[path] == was[path])
  }

  lemma AttemptFinishesOrFails(k: Catalog, files: Files, url: Url, f: Faults)
    requires Data(url) !in files
    ensures var (after, r) := Attempt(k, files, url, f);
            && SameElsewhere(files, after, url)
            && (!HasKill(f) ==> r != Killed)
            && (!KilledLate(f) && r == Killed ==> Data(url) !in after)
            && (r == Returned ==> Data(url) in after && after[Data(url)] == Full(k, url))
  {
  }

  /** One call, with an exception possible at every step and a kill possible during
      the download: the image is there and finished on return and absent
      otherwise, a call that did something and was not killed leaves no temporary
      file, even if it found one, and nothing else changes. */
  lemma CallKeepsCache(k: Catalog, files: Files, url: Url, f: Faults)
    requires DataComplete(k, files) && !KilledLate(f)
    ensures var (after, r) := Create(k, files, url, f);
            && DataComplete(k, after) && (r == Returned <==> Data(url) in after) && SameElsewhere(files, after, url)
            && (Data(url) !in files && r != Killed ==> Tmp(url) !in after)
            && (!HasKill(f) ==> r != Killed && NoNewTemporaries(files, after))
            && (Data(url) in files ==> after == files)
  {
    if Data(url) !in files {
      AttemptFinishesOrFails(k, files, url, f);
      hide Attempt, HasKill, KilledLate, Full;
    }
  }

  /** What a call that creates the image makes of it: a format or a size is asked
      for when it is given and not empty, and only then. */
  lemma CreatedAsAsked(k: Catalog, files: Files, url: Url, f: Faults)
    requires Data(url) !in files && Create(k, files, url, f).1 == Returned
    ensures var after := Create(k, files, url, f).0;
            && Data(url) in after && after[Data(url)].Image? && after[Data(url)].url == url
            && after[Data(url)].format == (if k.format(url) == Some("") then None else k.format(url))
            && after[Data(url)].size == (if k.size(url) == Some("") then None else k.size(url))
  {
    AttemptFinishesOrFails(k, files, url, f);
    hide Attempt;
  }

  /** A sequence of calls. */
  function Calls(k: Catalog, files: Files, calls: seq<(Url, Faults)>): Files
    decreases |calls|
  {
    if calls == [] then files else Calls(k, Create(k, files, calls[0].0, calls[0].1).0, calls[1..])
  }

  /** Any sequence of calls, each with exceptions and a kill during its download,
      keeps every cached image finished; without kills no temporary file stays that
      was not there before. */
  lemma {:induction false} CallsKeepCache(k: Catalog, files: Files, calls: seq<(Url, Faults)>)
    requires DataComplete(k, files) && forall c :: c in calls ==> !KilledLate(c.1)
    ensures DataComplete(k, Calls(k, files, calls))
    ensures (forall c :: c in calls ==> !HasKill(c.1)) ==> NoNewTemporaries(files, Calls(k, files, calls))
    decreases |calls|
  {
    if calls != [] {
      CallKeepsCache(k, files, calls[0].0, calls[0].1);
      CallsKeepCache(k, Create(k, files, calls[0].0, calls[0].1).0, calls[1..]);
    }
  }

  /** A call that gets as far as step n and is killed there: 0 is the download, 1
      the conversion or rename and 2 the resize. */
  function KilledAt(n: nat, left: Option<Content>): Faults {
    if n == 0 then Faults(Kill(left), Fine, Fine)
    else if n == 1 then Faults(Fine, Kill(left), Fine)
    else Faults(Fine, Fine, Kill(left))
  }

  /** A kill leaves only finished images behind, whatever the killed step had
      written, exactly when it comes before the step that creates the cached
      file; or at a step that is not made, or at the rename when it is the last. */
  lemma KillIsSafeIffBeforePublish(k: Catalog, files: Files, url: Url, n: nat)
    requires DataComplete(k, files) && Data(url) !in files && n <= 2
    ensures (forall left :: DataComplete(k, Create(k, files, url, KilledAt(n, left)).0))
       <==> n == 0
            || (n == 1 && Truthy(k.format(url)).None? && Truthy(k.size(url)).None?)
            || (n == 2 && Truthy(k.size(url)).None?)
  {
    var junk := Some(Junk(0));
    var after := Create(k, files, url, KilledAt(n, junk)).0;
    if n != 0 {
      assert Data(url) in after;
      assert DataComplete(k, after) ==> after[Data(url)] == Full(k, url);
    }
  }
}
