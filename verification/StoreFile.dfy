/** A map mirrored to one file by AtomicWrite: what the file shows now, and what a crash may bring back. */
module StoreFile {
  import opened Wrappers
  import D = Durable

  /** The encoding of a store; an absent file stands for `empty`. */
  datatype Codec<!M> = Codec(encode: M -> D.Bytes, decode: D.Bytes -> Option<M>, empty: M)

  ghost predicate RoundTrips<M(!new)>(c: Codec<M>) {
    forall m :: c.decode(c.encode(m)) == Some(m)
  }

  function Decoded<M>(c: Codec<M>, found: Option<D.Bytes>): Option<M> {
    match found
    case None => Some(c.empty)
    case Some(bytes) => c.decode(bytes)
  }

  datatype Image<M(==)> = Image(visible: M, crash: set<M>)

  ghost predicate MayDecodeTo<M(!new)>(c: Codec<M>, found: Option<D.Bytes>, values: set<M>) {
    exists m :: m in values && Decoded(c, found) == Some(m)
  }

  /** The file decodes to the image: to `visible` for a running process, to one of `crash` after a power loss. */
  ghost predicate Shows<M(!new)>(disk: D.Disk, path: D.Name, c: Codec<M>, image: Image<M>) {
    && D.Valid(disk) && path.File?
    && Decoded(c, D.Visible(disk, path)) == Some(image.visible)
    && forall found :: D.MayFind(disk, path, found) ==> MayDecodeTo(c, found, image.crash)
  }

  /** A file that decodes shows `image`; a corrupt one shows nothing. */
  ghost predicate ShowsIfSound<M(!new)>(disk: D.Disk, path: D.Name, c: Codec<M>, image: Image<M>) {
    Decoded(c, D.Visible(disk, path)).Some? ==> Shows(disk, path, c, image)
  }

  /** The three outcomes of a write, seen through the image. */
  function Rewritten<M>(image: Image<M>, m: M, outcome: D.Outcome): Image<M> {
    match outcome
    case Written => Image(m, {m})
    case Committed => Image(m, image.crash + {m})
    case NotCommitted => image
  }

  lemma ReplacedShows<M(!new)>(d0: D.Disk, d: D.Disk, path: D.Name, c: Codec<M>, image: Image<M>, m: M,
      outcome: D.Outcome)
    requires RoundTrips(c) && Shows(d0, path, c, image) && D.Replaced(d0, d, path, c.encode(m), outcome)
    ensures Shows(d, path, c, Rewritten(image, m, outcome))
  {
    var after := Rewritten(image, m, outcome);
    assert c.decode(c.encode(m)) == Some(m);
    forall found | D.MayFind(d, path, found) ensures MayDecodeTo(c, found, after.crash) {
      D.CrashFindsOldOrNew(d0, d, path, c.encode(m), path, found);
      if found == Some(c.encode(m)) && outcome != D.NotCommitted {
        assert m in after.crash;
      } else {
        assert MayDecodeTo(c, found, image.crash);
      }
    }
  }

  method Persist<M(!new)>(fs: D.FileSystem, path: D.Name, c: Codec<M>, m: M, weather: D.Weather, ghost image: Image<M>)
    returns (outcome: D.Outcome)
    requires RoundTrips(c) && Shows(fs.disk, path, c, image)
    modifies fs
    ensures outcome == D.ExpectedOutcome(old(fs.disk), weather)
    ensures Shows(fs.disk, path, c, Rewritten(image, m, outcome))
    ensures !outcome.NotCommitted? ==> D.SameTemps(old(fs.disk), fs.disk)
    ensures forall other: D.Name | other.File? && other != path ::
              D.Visible(fs.disk, other) == old(D.Visible(fs.disk, other))
  {
    ghost var d0 := fs.disk;
    outcome := D.AtomicWrite(fs, path, c.encode(m), weather);
    ReplacedShows(d0, fs.disk, path, c, image, m, outcome);
    D.OthersUnchanged(d0, fs.disk, path, c.encode(m), outcome);
  }

  /** A power loss at any moment of the write still leaves a complete store: an old one or the new one. */
  lemma CrashDuringWrite<M(!new)>(d0: D.Disk, d: D.Disk, path: D.Name, c: Codec<M>, image: Image<M>, m: M,
      found: Option<D.Bytes>)
    requires RoundTrips(c) && Shows(d0, path, c, image) && D.CrashSafe(d0, d, path, c.encode(m))
    requires D.MayFind(d, path, found)
    ensures MayDecodeTo(c, found, image.crash + {m})
  {
    D.CrashFindsOldOrNew(d0, d, path, c.encode(m), path, found);
    if D.MayFind(d0, path, found) {
      assert MayDecodeTo(c, found, image.crash);
      var before :| before in image.crash && Decoded(c, found) == Some(before);
      assert before in image.crash + {m};
    } else {
      assert m in image.crash + {m};
    }
  }

  /** Replacing one store's file leaves every other store in the directory, and its crash images, alone. */
  lemma OtherStoresStillShow<M(!new)>(
      d0: D.Disk, d: D.Disk, path: D.Name, data: D.Bytes, outcome: D.Outcome,
      other: D.Name, c: Codec<M>, image: Image<M>)
    requires D.Replaced(d0, d, path, data, outcome) && path.File? && other != path
    requires Shows(d0, other, c, image)
    ensures Shows(d, other, c, image)
  {
    D.OthersUnchanged(d0, d, path, data, outcome);
    forall found | D.MayFind(d, other, found) ensures MayDecodeTo(c, found, image.crash) {
      D.CrashFindsOldOrNew(d0, d, path, data, other, found);
    }
  }
}
