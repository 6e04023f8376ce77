/** Laws of the log-record builder: the starters are setters on an empty
    builder, setters touch only their own field, adding a tag is idempotent,
    the default-tag loop of `Build` is `Tag` applied once per default tag,
    and building twice gives the same record. */
module LLogLaws {
  import opened GoValues
  import opened LLog

  /** Each package-level starter is the matching setter on an empty builder. */
  lemma StartersAreSetters<V>(level: LogLevel, msg: string, tag: string, tags: Nilable<seq<string>>,
                              key: string, value: V, datas: Nilable<map<string, V>>)
    ensures NewLevel<V>(level) == SetLevel(Empty<V>(), level)
    ensures NewMsg<V>(msg) == SetMsg(Empty<V>(), msg)
    ensures NewTag<V>(tag) == AddTag(Empty<V>(), tag)
    ensures NewTags<V>(tags) == SetTags(Empty<V>(), tags)
    ensures NewData(key, value) == PutData(Empty<V>(), key, value)
    ensures NewDatas(datas) == SetDatas(Empty<V>(), datas)
  {
    assert Adjoin([], tag) == [tag];
  }

  /** Whole-field setters: the last write wins, and setters of different
      fields commute. */
  lemma SettersOverwrite<V>(b: Builder<V>, l1: LogLevel, l2: LogLevel, m1: string, m2: string,
                            t1: Nilable<seq<string>>, t2: Nilable<seq<string>>,
                            d1: Nilable<map<string, V>>, d2: Nilable<map<string, V>>)
    ensures SetLevel(SetLevel(b, l1), l2) == SetLevel(b, l2)
    ensures SetMsg(SetMsg(b, m1), m2) == SetMsg(b, m2)
    ensures SetTags(SetTags(b, t1), t2) == SetTags(b, t2)
    ensures SetDatas(SetDatas(b, d1), d2) == SetDatas(b, d2)
    ensures SetMsg(SetLevel(b, l1), m1) == SetLevel(SetMsg(b, m1), l1)
    ensures SetTags(SetLevel(b, l1), t1) == SetLevel(SetTags(b, t1), l1)
    ensures SetDatas(SetLevel(b, l1), d1) == SetLevel(SetDatas(b, d1), l1)
    ensures SetTags(SetMsg(b, m1), t1) == SetMsg(SetTags(b, t1), m1)
    ensures SetDatas(SetMsg(b, m1), d1) == SetMsg(SetDatas(b, d1), m1)
    ensures SetDatas(SetTags(b, t1), d1) == SetTags(SetDatas(b, d1), t1)
  {
  }

  /** Adding the same tag twice is the same as adding it once. */
  lemma AddTagIdempotent<V>(b: Builder<V>, tag: string)
    ensures AddTag(AddTag(b, tag), tag) == AddTag(b, tag)
  {
  }

  /** `Tags` takes the list as given, so unlike `Tag` it can leave a
      duplicate in the builder. */
  lemma SetTagsKeepsDuplicates<V>(b: Builder<V>)
    ensures !Distinct(SetTags(b, NonNil(["a", "a"])).tags.value)
    ensures Distinct(AddTag(AddTag(SetTags(b, Nil), "a"), "a").tags.value)
  {
    assert SetTags(b, NonNil(["a", "a"])).tags.value[0] == SetTags(b, NonNil(["a", "a"])).tags.value[1];
    assert Adjoin([], "a") == ["a"];
  }

  /** `Tag` applied to each tag in turn. */
  function AddTags<V>(b: Builder<V>, tags: seq<string>): (r: Builder<V>)
    ensures r.level == b.level && r.msg == b.msg && r.datas == b.datas
    decreases |tags|
  {
    if |tags| == 0 then b else AddTags(AddTag(b, tags[0]), tags[1..])
  }

  /** The default-tag loop of `Build` adds exactly what calling `Tag` once
      per default tag would. */
  lemma {:induction false} DefaultTagsAreTagCalls<V>(b: Builder<V>, extra: seq<string>)
    requires b.tags.NonNil? || |extra| > 0
    ensures AddTags(b, extra).tags == NonNil(AppendAbsent(TagsOf(b), extra))
    decreases |extra|
  {
    if |extra| > 0 {
      var next := AddTag(b, extra[0]);
      if |extra| > 1 {
        DefaultTagsAreTagCalls(next, extra[1..]);
      } else {
        assert extra[1..] == [];
      }
    }
  }

  /** When every extra tag is already present, the default-tag loop changes
      nothing. */
  lemma {:induction false} AppendAbsentPresent(tags: seq<string>, extra: seq<string>)
    requires forall x :: x in extra ==> x in tags
    ensures AppendAbsent(tags, extra) == tags
    decreases |extra|
  {
    if |extra| > 0 {
      assert extra[0] in extra;
      forall x | x in extra[1..]
        ensures x in tags
      {
        assert x in extra;
      }
      AppendAbsentPresent(tags, extra[1..]);
    }
  }

  /** Building again from the builder `Build` leaves behind yields the same
      record: the defaults are already in place and the context cannot
      override the builder's data. */
  lemma BuildIdempotent<V>(b: Builder<V>, defaults: Defaults<V>, ctx: map<string, V>, now: int)
    ensures var first := Build(b, defaults, ctx, now);
      Build(first.builder, defaults, ctx, now) == first
  {
    var first := Build(b, defaults, ctx, now);
    var b2 := first.builder;
    AppendAbsentPresent(first.log.tags, defaults.tags);
    var ctxData := ContextDatas(defaults.contextDataKeys, ctx);
    assert ctxData + first.log.datas == first.log.datas;
  }
}
