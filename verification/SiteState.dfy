/** The record of every site on the node (internal/site/state.go). */
module SiteState {
  import opened Wrappers
  import D = Durable
  import opened StoreFile
  import R = SiteResources

  /** `Blank` is the empty status of old records, `Other` any value the agent never writes. */
  datatype Status = Blank | Active | Suspended | Other(text: string)

  /** DocumentRoot and PHPSocket are fixed by domain and user when a site is created and never change. */
  datatype State = State(
    siteID: string, domain: string, user: string, version: string, status: Status, domains: seq<string>,
    databases: seq<string>, sftpEnabled: bool, resources: R.Resources, app: string)

  type States = map<string, State>

  /** The map held in memory after a write of `next` over `previous`: the change is undone only when
      the rename did not happen. */
  function Kept(previous: States, next: States, outcome: D.Outcome): States {
    if outcome.NotCommitted? then previous else next
  }

  datatype Mirror = Mirror(memory: States, file: Image<States>)

  function AfterSave(m: Mirror, s: State, outcome: D.Outcome): Mirror {
    Mirror(Kept(m.memory, m.memory[s.siteID := s], outcome), Rewritten(m.file, m.memory[s.siteID := s], outcome))
  }

  function AfterDelete(m: Mirror, id: string, outcome: D.Outcome): Mirror {
    if id !in m.memory then m
    else Mirror(Kept(m.memory, Without(m.memory, id), outcome), Rewritten(m.file, Without(m.memory, id), outcome))
  }

  /** Memory equals the visible file after every save and delete, under all three outcomes. */
  lemma MemoryEqualsDisk(m: Mirror, s: State, id: string, outcome: D.Outcome)
    requires m.memory == m.file.visible
    ensures AfterSave(m, s, outcome).memory == AfterSave(m, s, outcome).file.visible
    ensures AfterDelete(m, id, outcome).memory == AfterDelete(m, id, outcome).file.visible
  {
  }

  /** Without an error the new map is also the only one a crash can leave. */
  lemma WrittenSurvivesCrash(m: Mirror, s: State, id: string)
    requires m.memory == m.file.visible && id in m.memory
    ensures AfterSave(m, s, D.Written).file.crash == {AfterSave(m, s, D.Written).memory}
    ensures AfterDelete(m, id, D.Written).file.crash == {AfterDelete(m, id, D.Written).memory}
  {
  }

  class FileStateStore {
    const fs: D.FileSystem
    const path: D.Name
    const codec: Codec<States>
    var states: States
    ghost var image: Image<States>

    ghost predicate Valid()
      reads this, fs
    {
      RoundTrips(codec) && Shows(fs.disk, path, codec, image) && states == image.visible
    }

    ghost function Mirrored(): Mirror
      reads this
    {
      Mirror(states, image)
    }

    constructor (fs: D.FileSystem, path: D.Name, codec: Codec<States>, states: States, ghost image: Image<States>)
      requires RoundTrips(codec) && Shows(fs.disk, path, codec, image) && states == image.visible
      ensures this.fs == fs && this.path == path && this.codec == codec
      ensures Valid() && Mirrored() == Mirror(states, image)
    {
      this.fs, this.path, this.codec, this.states, this.image := fs, path, codec, states, image;
    }

    method Save(state: State, weather: D.Weather) returns (outcome: D.Outcome)
      requires Valid()
      modifies this, fs
      ensures Valid()
      ensures outcome == D.ExpectedOutcome(old(fs.disk), weather)
      ensures Mirrored() == AfterSave(old(Mirrored()), state, outcome)
    {
      var previous := Lookup(states, state.siteID);
      states := states[state.siteID := state];
      outcome := Persist(fs, path, codec, states, weather, image);
      image := Rewritten(image, states, outcome);
      if outcome.NotCommitted? {
        if previous.Some? {
          states := states[state.siteID := previous.value];
        } else {
          states := Without(states, state.siteID);
        }
        assert states == old(states);
      }
    }

    method Delete(siteID: string, weather: D.Weather) returns (outcome: D.Outcome)
      requires Valid()
      modifies this, fs
      ensures Valid()
      ensures outcome == if siteID in old(states) then D.ExpectedOutcome(old(fs.disk), weather) else D.Written
      ensures Mirrored() == AfterDelete(old(Mirrored()), siteID, outcome)
    {
      if siteID !in states {
        return D.Written;
      }
      var previous := states[siteID];
      states := Without(states, siteID);
      outcome := Persist(fs, path, codec, states, weather, image);
      image := Rewritten(image, states, outcome);
      if outcome.NotCommitted? {
        states := states[siteID := previous];
        assert states == old(states);
      }
    }
  }

  /** NewFileStateStore: an absent file is an empty store, an unreadable or corrupt one is refused. `readFails` is
      any error of the read but absence. */
  method Open(fs: D.FileSystem, path: D.Name, codec: Codec<States>, readFails: bool, ghost image: Image<States>)
    returns (store: FileStateStore?)
    requires RoundTrips(codec) && ShowsIfSound(fs.disk, path, codec, image) && codec.empty == map[]
    ensures store == null <==> readFails || Decoded(codec, D.Visible(fs.disk, path)) == None
    ensures store != null ==> fresh(store) && store.Valid() && store.Mirrored() == Mirror(image.visible, image)
                              && store.fs == fs && store.path == path && store.codec == codec
  {
    if readFails {
      return null;
    }
    var found := D.Visible(fs.disk, path);
    if found == None {
      store := new FileStateStore(fs, path, codec, map[], image);
      return;
    }
    var decoded := codec.decode(found.value);
    if decoded == None {
      return null;
    }
    store := new FileStateStore(fs, path, codec, decoded.value, image);
  }
}
