/** What an edit of the user's does to the row (`internal/playground/http.go`, `payload.go`,
    `expiration.go`): which overrides a PATCH leaves, when it marks the Playground as changed, and
    how far an extension moves the expiry. */
module RequestEffects {
  import opened Text
  import opened PlaygroundStore
  import opened Deployment
  import opened DeploymentProgress

  // ---------------------------------------------------------------- merged overrides

  /** What an override holds under a path of keys. */
  function At(o: Override, path: seq<string>): Option<Override> {
    if path == [] then Some(o)
    else if o.Object? && path[0] in o.fields then At(o.fields[path[0]], path[1..])
    else None
  }

  /** The override is an object that says nothing about the path: somewhere on the way a key is missing. */
  predicate Silent(o: Override, path: seq<string>) {
    path != [] && o.Object? && (path[0] in o.fields ==> Silent(o.fields[path[0]], path[1..]))
  }

  lemma {:induction false} SilentIsNone(o: Override, path: seq<string>)
    requires Silent(o, path)
    ensures At(o, path).None?
  {
    if path[0] in o.fields { SilentIsNone(o.fields[path[0]], path[1..]); }
  }

  /** Merging overrides leaves under every path the incoming value, or where the incoming override
      is silent the value there was; and nothing else. */
  lemma {:induction false} MergedValues(base: Override, incoming: Override, path: seq<string>, text: string)
    ensures At(MergeOverrides(base, incoming), path) == Some(Plain(text)) <==>
            At(incoming, path) == Some(Plain(text)) || (Silent(incoming, path) && At(base, path) == Some(Plain(text)))
    decreases |path|
  {
    if path != [] && base.Object? && incoming.Object? {
      var key := path[0];
      if key in base.fields && key in incoming.fields {
        MergedValues(base.fields[key], incoming.fields[key], path[1..], text);
      }
    }
  }

  // ---------------------------------------------------------------- requests in a run

  predicate ConfigDiffers(a: Meta, b: Meta) {
    a.playspec != b.playspec || a.marquee != b.marquee || a.env != b.env || a.services != b.services
  }

  /** A PATCH writes what it names and nothing else, and marks a pending, starting or running
      Playground as changed exactly when its Playspec, Marquee, environment or overrides now differ. */
  lemma PatchEffect(ss: seq<State>, es: seq<Event>, i: nat)
    requires IsRun(ss, es) && i < |es| && es[i].Patch?
    ensures ss[i].row.Some? && ss[i + 1].row.Some?
    ensures var edit, before, after := es[i].edit, ss[i].row.value, ss[i + 1].row.value;
            && after.meta.name == (if edit.name.Some? then TrimSpace(edit.name.value) else before.meta.name)
            && after.meta.playspec == (if edit.playspec.Some? then edit.playspec else before.meta.playspec)
            && after.meta.marquee == (if edit.marquee.Some? then edit.marquee else before.meta.marquee)
            && after.meta.env == (if edit.env.Some? then edit.env.value else before.meta.env)
            && (edit.services.None? ==> after.meta.services == before.meta.services)
            && (match edit.expiry
                case KeepExpiry => after.meta.expiresAt == before.meta.expiresAt
                case NeverExpire => after.meta.expiresAt.None?
                case ExpireAt(time) => after.meta.expiresAt == Some(time))
            && after.payload == before.payload
    ensures var before, after := ss[i].row.value, ss[i + 1].row.value;
            after.status == if before.status in {Pending, InProgress, Running} && ConfigDiffers(before.meta, after.meta)
                            then HasChanges else before.status
  {
    RunInv(ss, es, i);
    TrimSpaceFixed(ss[i].row.value.meta.name);
  }

  /** The overrides after a PATCH, path by path. */
  lemma PatchedOverrides(ss: seq<State>, es: seq<Event>, i: nat, path: seq<string>, text: string)
    requires IsRun(ss, es) && i < |es| && es[i].Patch? && es[i].edit.services.Some? && path != []
    ensures ss[i].row.Some? && ss[i + 1].row.Some?
    ensures var incoming := Object(es[i].edit.services.value);
            At(Object(ss[i + 1].row.value.meta.services), path) == Some(Plain(text)) <==>
            || At(incoming, path) == Some(Plain(text))
            || (Silent(incoming, path) && At(Object(ss[i].row.value.meta.services), path) == Some(Plain(text)))
  {
    RunInv(ss, es, i);
    MergedValues(Object(ss[i].row.value.meta.services), Object(es[i].edit.services.value), path, text);
  }

  /** An extension adds its duration to the expiry, or to the present moment when there is none to
      come, and changes nothing else; it is granted in no state of stopping, stopped, being destroyed or completed. */
  lemma ExtendEffect(ss: seq<State>, es: seq<Event>, i: nat)
    requires IsRun(ss, es) && i < |es| && es[i].Extend?
    ensures ss[i].row.Some? && ss[i + 1].row.Some?
    ensures var before, after, expiry := ss[i].row.value, ss[i + 1].row.value, ss[i].row.value.meta.expiresAt;
            && before.status in {Pending, InProgress, Running, HasChanges, Failed}
            && after.meta.expiresAt
               == Some(es[i].duration + if expiry.Some? && expiry.value > es[i].now then expiry.value else es[i].now)
            && after == before.(meta := before.meta.(expiresAt := after.meta.expiresAt), version := after.version)
  {
    RunInv(ss, es, i);
    TrimSpaceFixed(ss[i].row.value.meta.name);
  }

  lemma ExtendAllowedIff(s: State, now: int, duration: int)
    ensures Enabled(s, Extend(now, duration)) <==>
            s.row.Some? && s.row.value.status in {Pending, InProgress, Running, HasChanges, Failed}
  {
  }
}
