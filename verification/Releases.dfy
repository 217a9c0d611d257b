/** Where a build's hash comes from, and so what two builds with one hash have in common. */
module Releases {
  import opened Wrappers
  import opened Convergence
  import opened CatalogRuns
  import F = Fingerprint

  /** What reading a source's embedded files and column list gives; its hash and code are not read. */
  type Reader = F.Source -> Build

  /** The build is compiled from this source, with whatever code synthesizes its variant rows. */
  ghost predicate BuiltFrom(b: Build, s: F.Source, read: Reader, sha: string -> string) {
    b == read(s).(version := s.version, hash := sha(F.StreamOf(s)), synthesize := b.synthesize)
  }

  /** The hash tells the two sources' streams apart if they differ. */
  predicate NoCollision(s: F.Source, t: F.Source, sha: string -> string) {
    sha(F.StreamOf(s)) == sha(F.StreamOf(t)) ==> F.StreamOf(s) == F.StreamOf(t)
  }

  /** Builds have one hash exactly when they are built from one source, and then they are twins. */
  lemma OneHashOneSource(b: Build, s: F.Source, c: Build, t: F.Source, read: Reader, sha: string -> string)
    requires BuiltFrom(b, s, read, sha) && BuiltFrom(c, t, read, sha)
    requires F.WellNamed(s) && F.WellNamed(t) && NoCollision(s, t, sha)
    ensures b.hash == c.hash <==> s == t
    ensures b.hash == c.hash ==> Twins(b, c)
  {
    F.StreamsAreUnique(s, t);
  }

  /** Every build of the run is built from one of the sources, none of which collides with s. */
  ghost predicate Released(events: seq<(Build, Event)>, sources: seq<F.Source>, s: F.Source, read: Reader,
                           sha: string -> string)
  {
    && |sources| == |events|
    && forall i | 0 <= i < |events| ::
         BuiltFrom(events[i].0, sources[i], read, sha) && F.WellNamed(sources[i]) && NoCollision(s, sources[i], sha)
  }

  /** So over any run of such builds, whatever code they were compiled with, a read-only server start is
      right all along exactly when every event is harmless. */
  lemma ReleasedServesAreHonest(f: File, events: seq<(Build, Event)>, sources: seq<F.Source>, b: Build, s: F.Source,
                                read: Reader, sha: string -> string)
    requires BuiltFrom(b, s, read, sha) && F.WellNamed(s) && Released(events, sources, s, read, sha)
    requires f.fingerprint != Some(b.hash)
    ensures HashesTellSeeds(events, b)
    ensures HonestAllAlong(f, events, b) <==> AllHarmless(f, events, b)
  {
    forall i | 0 <= i < |events| && events[i].0.hash == b.hash ensures Twins(b, events[i].0) {
      OneHashOneSource(b, s, events[i].0, sources[i], read, sha);
    }
    ReadOnlyServesAreHonest(f, events, b);
  }
}
