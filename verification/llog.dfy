/** The log-record builder: a fluent accumulator of level, message, tags and
    key-value data, and `Build`, which fills in the defaults and merges the
    data carried by the request context. The package-level defaults (default
    tags, default context-data keys, metadata), the context lookup and the
    clock are parameters. Values of `any` type are a type parameter `V`; a
    context key whose value is nil is a key absent from the context map. */
module LLog {
  import opened GoValues

  type LogLevel = string

  const FATAL: LogLevel := "FATAL"
  const ERROR: LogLevel := "ERROR"
  const WARN: LogLevel := "WARN"
  const INFO: LogLevel := "INFO"
  const DEBUG: LogLevel := "DEBUG"

  /** The five declared levels, most severe first. */
  datatype Severity = Fatal | Error | Warn | Info | Debug

  function Name(s: Severity): LogLevel
  {
    match s
    case Fatal => FATAL
    case Error => ERROR
    case Warn => WARN
    case Info => INFO
    case Debug => DEBUG
  }

  /** Position of a level in the declared order. */
  function Rank(s: Severity): nat
  {
    match s
    case Fatal => 0
    case Error => 1
    case Warn => 2
    case Info => 3
    case Debug => 4
  }

  predicate Distinct(s: seq<string>)
  {
    forall i, j :: 0 <= i < j < |s| ==> s[i] != s[j]
  }

  /** The level names the enum accepts: every declared level exactly once, in
      declared order; the unset level "" is not among them. */
  function Values(): (r: seq<string>)
    ensures |r| == 5 && Distinct(r)
    ensures forall s: Severity :: r[Rank(s)] == Name(s)
    ensures INFO in r && "" !in r
  {
    [FATAL, ERROR, WARN, INFO, DEBUG]
  }

  /** The builder's fields; `Nil` is a nil slice or map. */
  datatype Builder<V> = Builder(level: LogLevel, msg: string,
                                tags: Nilable<seq<string>>, datas: Nilable<map<string, V>>)

  /** A built record. Tags and data are never nil once built. */
  datatype Record<V> = Record(level: LogLevel, msg: string, tags: seq<string>,
                              metadata: Nilable<map<string, V>>, datas: map<string, V>,
                              createdAt: int)

  /** The package-level defaults `Build` reads. */
  datatype Defaults<V> = Defaults(tags: seq<string>, contextDataKeys: seq<string>,
                                  metadatas: Nilable<map<string, V>>)

  /** What `Build` returns, and the builder as `Build` leaves it. */
  datatype Built<V> = Built(log: Record<V>, builder: Builder<V>)

  function TagsOf<V>(b: Builder<V>): seq<string>
  {
    match b.tags
    case NonNil(ts) => ts
    case Nil => []
  }

  function DatasOf<V>(b: Builder<V>): map<string, V>
  {
    match b.datas
    case NonNil(m) => m
    case Nil => map[]
  }

  /** Appends `tag` unless it is already present. */
  function Adjoin(tags: seq<string>, tag: string): (r: seq<string>)
    ensures tag in r
    ensures forall x :: x in r <==> x in tags || x == tag
    ensures |r| >= |tags| && r[..|tags|] == tags
    ensures tag in tags ==> r == tags
    ensures tag !in tags ==> r == tags + [tag]
    ensures Distinct(tags) ==> Distinct(r)
  {
    if tag in tags then tags else tags + [tag]
  }

  /** Replaces the level. */
  function SetLevel<V>(b: Builder<V>, level: LogLevel): (r: Builder<V>)
    ensures r.level == level
    ensures r.msg == b.msg && r.tags == b.tags && r.datas == b.datas
  {
    b.(level := level)
  }

  /** Replaces the message. */
  function SetMsg<V>(b: Builder<V>, msg: string): (r: Builder<V>)
    ensures r.msg == msg
    ensures r.level == b.level && r.tags == b.tags && r.datas == b.datas
  {
    b.(msg := msg)
  }

  /** Adds one tag: a nil list becomes empty first, and a tag already present
      is not added again. */
  function AddTag<V>(b: Builder<V>, tag: string): (r: Builder<V>)
    ensures r.tags.NonNil? && tag in r.tags.value
    ensures forall x :: x in r.tags.value <==> x in TagsOf(b) || x == tag
    ensures |r.tags.value| >= |TagsOf(b)| && r.tags.value[..|TagsOf(b)|] == TagsOf(b)
    ensures tag in TagsOf(b) ==> r.tags.value == TagsOf(b)
    ensures tag !in TagsOf(b) ==> r.tags.value == TagsOf(b) + [tag]
    ensures Distinct(TagsOf(b)) ==> Distinct(r.tags.value)
    ensures r.level == b.level && r.msg == b.msg && r.datas == b.datas
  {
    b.(tags := NonNil(Adjoin(TagsOf(b), tag)))
  }

  /** Replaces the whole tag list, duplicates and nil included. */
  function SetTags<V>(b: Builder<V>, tags: Nilable<seq<string>>): (r: Builder<V>)
    ensures r.tags == tags
    ensures r.level == b.level && r.msg == b.msg && r.datas == b.datas
  {
    b.(tags := tags)
  }

  /** Sets one key: a nil map becomes empty first; every other key keeps
      its value. */
  function PutData<V>(b: Builder<V>, key: string, value: V): (r: Builder<V>)
    ensures r.datas.NonNil? && key in r.datas.value && r.datas.value[key] == value
    ensures forall k :: k != key ==> (k in r.datas.value <==> k in DatasOf(b))
    ensures forall k :: k != key && k in DatasOf(b) ==> r.datas.value[k] == DatasOf(b)[k]
    ensures r.level == b.level && r.msg == b.msg && r.tags == b.tags
  {
    b.(datas := NonNil(DatasOf(b)[key := value]))
  }

  /** Replaces the whole data map, nil included. */
  function SetDatas<V>(b: Builder<V>, datas: Nilable<map<string, V>>): (r: Builder<V>)
    ensures r.datas == datas
    ensures r.level == b.level && r.msg == b.msg && r.tags == b.tags
  {
    b.(datas := datas)
  }

  /** The builder with every field at its zero value. */
  function Empty<V>(): Builder<V>
  {
    Builder("", "", Nil, Nil)
  }

  /** The package-level starters: a fresh builder with one field set. */
  function NewLevel<V>(level: LogLevel): Builder<V> { Builder(level, "", Nil, Nil) }
  function NewMsg<V>(msg: string): Builder<V> { Builder("", msg, Nil, Nil) }
  function NewTag<V>(tag: string): Builder<V> { Builder("", "", NonNil([tag]), Nil) }
  function NewTags<V>(tags: Nilable<seq<string>>): Builder<V> { Builder("", "", tags, Nil) }
  function NewData<V>(key: string, value: V): Builder<V> { Builder("", "", Nil, NonNil(map[key := value])) }
  function NewDatas<V>(datas: Nilable<map<string, V>>): Builder<V> { Builder("", "", Nil, datas) }

  /** The default-tag loop of `Build`: each extra tag, in order, is appended
      unless already present. The original tags stay a prefix, every extra tag
      ends up present, and nothing is appended twice or duplicates a tag that
      was there. */
  function AppendAbsent(tags: seq<string>, extra: seq<string>): (r: seq<string>)
    ensures |r| >= |tags| && r[..|tags|] == tags
    ensures forall x :: x in r <==> x in tags || x in extra
    ensures forall i :: |tags| <= i < |r| ==> r[i] !in tags
    ensures Distinct(r[|tags|..])
    decreases |extra|
  {
    if |extra| == 0 then tags
    else
      var r := AppendAbsent(Adjoin(tags, extra[0]), extra[1..]);
      AppendAbsentStep(tags, extra, r);
      r
  }

  /** One round of the default-tag loop: what holds of the rest of the loop
      from the tags grown by the first extra tag holds from the tags before. */
  lemma AppendAbsentStep(tags: seq<string>, extra: seq<string>, r: seq<string>)
    requires |extra| > 0
    requires var grown := Adjoin(tags, extra[0]);
      && |r| >= |grown| && r[..|grown|] == grown
      && (forall x :: x in r <==> x in grown || x in extra[1..])
      && (forall i :: |grown| <= i < |r| ==> r[i] !in grown)
      && Distinct(r[|grown|..])
    ensures |r| >= |tags| && r[..|tags|] == tags
    ensures forall x :: x in r <==> x in tags || x in extra
    ensures forall i :: |tags| <= i < |r| ==> r[i] !in tags
    ensures Distinct(r[|tags|..])
  {
    var tag := extra[0];
    assert extra == [tag] + extra[1..];
    var grown := Adjoin(tags, tag);
    assert forall x :: x in grown || x in extra[1..] <==> x in tags || x in extra;
    if tag !in tags {
      assert grown == tags + [tag];
      assert r[..|tags|] == grown[..|tags|];
      var later := r[|grown|..];
      assert r[|tags|..] == [tag] + later;
      assert tag !in later by {
        forall j | 0 <= j < |later|
          ensures later[j] != tag
        {
          assert later[j] == r[|grown| + j];
        }
      }
      DistinctCons(tag, later);
    }
  }

  /** A new item in front of a duplicate-free sequence keeps it duplicate-free. */
  lemma DistinctCons(x: string, s: seq<string>)
    requires x !in s && Distinct(s)
    ensures Distinct([x] + s)
  {
    forall i, j | 0 <= i < j < |[x] + s|
      ensures ([x] + s)[i] != ([x] + s)[j]
    {
      if i > 0 {
        assert ([x] + s)[i] == s[i - 1];
      }
      assert ([x] + s)[j] == s[j - 1];
    }
  }

  /** The context-data loop of `Build`: each default key whose context value
      is non-nil, with that value. */
  function ContextDatas<V>(keys: seq<string>, ctx: map<string, V>): (m: map<string, V>)
    ensures forall k :: k in m <==> k in keys && k in ctx
    ensures forall k :: k in m ==> m[k] == ctx[k]
    decreases |keys|
  {
    if |keys| == 0 then map[]
    else
      var key := keys[|keys| - 1];
      var m := ContextDatas(keys[..|keys| - 1], ctx);
      if key in ctx then m[key := ctx[key]] else m
  }

  /** Builds the record: an unset level becomes INFO, the default tags are
      appended when absent, and the data is the context's values for the
      default keys overridden by the builder's own. The builder is left
      holding the built level, tags and data. */
  function Build<V>(b: Builder<V>, defaults: Defaults<V>, ctx: map<string, V>, now: int): (r: Built<V>)
    ensures r.log.level == (if b.level == "" then INFO else b.level) && r.log.level != ""
    ensures r.log.msg == b.msg && r.log.metadata == defaults.metadatas && r.log.createdAt == now
    ensures |r.log.tags| >= |TagsOf(b)| && r.log.tags[..|TagsOf(b)|] == TagsOf(b)
    ensures forall t :: t in r.log.tags <==> t in TagsOf(b) || t in defaults.tags
    ensures forall i :: |TagsOf(b)| <= i < |r.log.tags| ==> r.log.tags[i] !in TagsOf(b)
    ensures Distinct(r.log.tags[|TagsOf(b)|..])
    ensures Distinct(TagsOf(b)) ==> Distinct(r.log.tags)
    ensures forall k :: k in r.log.datas <==> k in DatasOf(b) || (k in defaults.contextDataKeys && k in ctx)
    ensures forall k :: k in DatasOf(b) ==> r.log.datas[k] == DatasOf(b)[k]
    ensures forall k :: k in r.log.datas && k !in DatasOf(b) ==> r.log.datas[k] == ctx[k]
    ensures r.builder == Builder(r.log.level, b.msg, NonNil(r.log.tags), NonNil(r.log.datas))
  {
    var level := if b.level == "" then INFO else b.level;
    var tags := AppendAbsent(TagsOf(b), defaults.tags);
    var datas := ContextDatas(defaults.contextDataKeys, ctx) + DatasOf(b);
    DistinctAppend(TagsOf(b), tags);
    Built(Record(level, b.msg, tags, defaults.metadatas, datas, now),
          Builder(level, b.msg, NonNil(tags), NonNil(datas)))
  }

  /** A duplicate-free prefix followed by a duplicate-free suffix that avoids
      it is duplicate-free. */
  lemma DistinctAppend(prefix: seq<string>, r: seq<string>)
    requires |r| >= |prefix| && r[..|prefix|] == prefix
    requires forall i :: |prefix| <= i < |r| ==> r[i] !in prefix
    requires Distinct(r[|prefix|..])
    ensures Distinct(prefix) ==> Distinct(r)
  {
    if Distinct(prefix) {
      forall i, j | 0 <= i < j < |r|
        ensures r[i] != r[j]
      {
        if j < |prefix| {
          assert r[i] == prefix[i] && r[j] == prefix[j];
        } else if i < |prefix| {
          assert r[i] == prefix[i];
        } else {
          assert r[i] == r[|prefix|..][i - |prefix|] && r[j] == r[|prefix|..][j - |prefix|];
        }
      }
    }
  }
}
