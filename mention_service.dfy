/** `detectMentions`: the usernames written as `@name` in a post or comment, and the mentions it
    saves for the users they name, skipping the author and mentions that already exist. The
    user table and the mention table are parameters and a store. */
module MentionService {
  import opened Wrappers
  import opened JsStrings
  import opened Seqs

  /** The end of the run of `\w` characters that starts at position `i` of `text`: the run
      cannot be extended past it. */
  function RunEnd(text: string, i: nat): (e: nat)
    requires i <= |text|
    ensures i <= e <= |text|
    ensures forall q :: i <= q < e ==> IsWordChar(text[q])
    ensures e == |text| || !IsWordChar(text[e])
    decreases |text| - i
  {
    if i < |text| && IsWordChar(text[i]) then RunEnd(text, i + 1) else i
  }

  /** The positions `[start, end)` of the name in one match of `/@(\w+)/g`. */
  datatype Span = Span(start: nat, end: nat)

  /** `sp` is a match: an `@` just before it, one or more `\w` characters, and no `\w`
      character just after it, so the run cannot be extended. */
  predicate IsMatch(text: string, sp: Span)
  {
    && 0 < sp.start < sp.end <= |text|
    && text[sp.start - 1] == '@'
    && (forall p :: sp.start <= p < sp.end ==> IsWordChar(text[p]))
    && (sp.end == |text| || !IsWordChar(text[sp.end]))
  }

  /** Position `p` holds an `@` followed by a `\w` character: where `/@(\w+)/` can match. */
  predicate MentionAt(text: string, p: nat)
  {
    p + 1 < |text| && text[p] == '@' && IsWordChar(text[p + 1])
  }

  /** The matches of the global regular expression from position `i` on, scanned left to right:
      after a match the scan resumes at its end, so matches do not overlap. */
  function Spans(text: string, i: nat): (r: seq<Span>)
    requires i <= |text|
    ensures forall k :: 0 <= k < |r| ==> IsMatch(text, r[k]) && i < r[k].start
    ensures forall k :: 0 < k < |r| ==> r[k - 1].end < r[k].start
    decreases |text| - i
  {
    if i + 1 >= |text| then []
    else if MentionAt(text, i) then
      var e := RunEnd(text, i + 1);
      [Span(i + 1, e)] + Spans(text, e)
    else Spans(text, i + 1)
  }

  /** At an `@` followed by a `\w` character the scan takes the whole run as a match. */
  lemma {:induction false} SpansMatch(text: string, i: nat)
    requires MentionAt(text, i)
    ensures Spans(text, i) == [Span(i + 1, RunEnd(text, i + 1))] + Spans(text, RunEnd(text, i + 1))
  {
  }

  /** Anywhere else the scan moves on by one character. */
  lemma {:induction false} SpansSkip(text: string, i: nat)
    requires i + 1 < |text| && !MentionAt(text, i)
    ensures Spans(text, i) == Spans(text, i + 1)
  {
  }

  function Starts(r: seq<Span>): seq<nat>
  {
    if r == [] then [] else [r[0].start] + Starts(r[1..])
  }

  lemma {:induction false} StartsCons(sp: Span, r: seq<Span>)
    ensures Starts([sp] + r) == [sp.start] + Starts(r)
  {
    assert ([sp] + r)[1..] == r;
  }

  /** The scan misses no `@name`: every `@` followed by a `\w` character starts a match. */
  lemma {:induction false} EveryMentionFound(text: string, i: nat, p: nat)
    requires i <= p && MentionAt(text, p)
    ensures p + 1 in Starts(Spans(text, i))
    decreases |text| - i, 1
  {
    if MentionAt(text, i) {
      FoundFromMatch(text, i, p);
    } else {
      SpansSkip(text, i);
      EveryMentionFound(text, i + 1, p);
    }
  }

  /** The case of `EveryMentionFound` where the scan stands on a match. */
  lemma {:induction false} FoundFromMatch(text: string, i: nat, p: nat)
    requires i <= p && MentionAt(text, p) && MentionAt(text, i)
    ensures p + 1 in Starts(Spans(text, i))
    decreases |text| - i, 0
  {
    var e := RunEnd(text, i + 1);
    assert Spans(text, i) == [Span(i + 1, e)] + Spans(text, e) by {
      SpansMatch(text, i);
    }
    if i < p {
      assert !IsWordChar(text[p]);
      EveryMentionFound(text, e, p);
    }
    assert p + 1 in Starts([Span(i + 1, e)] + Spans(text, e)) by {
      StartsCons(Span(i + 1, e), Spans(text, e));
    }
  }

  /** `text.match(/@(\w+)/g).map(u => u.slice(1))`: the names, in the order they appear. */
  function MatchedNames(text: string): (r: seq<string>)
    ensures |r| == |Spans(text, 0)|
    ensures forall k :: 0 <= k < |r| ==> r[k] == text[Spans(text, 0)[k].start..Spans(text, 0)[k].end]
  {
    var sp := Spans(text, 0);
    seq(|sp|, k requires 0 <= k < |sp| => text[sp[k].start..sp[k].end])
  }

  /** `[...new Set(...)]` of the names: each once, in order of first appearance. */
  function Usernames(text: string): seq<string>
  {
    Distinct(MatchedNames(text))
  }

  /** Every username is a non-empty run of `\w` characters that the text holds as a match,
      right after an `@`, and no name appears twice. */
  lemma {:induction false} UsernamesShape(text: string, u: string)
    requires u in Usernames(text)
    ensures u != [] && forall j :: 0 <= j < |u| ==> IsWordChar(u[j])
    ensures exists sp :: IsMatch(text, sp) && text[sp.start..sp.end] == u
    ensures NoDuplicates(Usernames(text))
  {
    var names := MatchedNames(text);
    assert u in names;
    var k :| 0 <= k < |names| && names[k] == u;
    var sp := Spans(text, 0)[k];
    assert IsMatch(text, sp) && text[sp.start..sp.end] == u;
    MatchIsWordRun(text, sp);
  }

  lemma {:induction false} MatchIsWordRun(text: string, sp: Span)
    requires IsMatch(text, sp)
    ensures var u := text[sp.start..sp.end];
      u != [] && forall j :: 0 <= j < |u| ==> IsWordChar(u[j])
  {
    var u := text[sp.start..sp.end];
    assert forall j :: 0 <= j < |u| ==> u[j] == text[sp.start + j];
  }

  /** Text with no `@` followed by a `\w` character yields no username, and only such text:
      the function returns before it queries the users. */
  lemma {:induction false} NoUsernamesIff(text: string)
    ensures Usernames(text) == [] <==>
      forall p :: 0 <= p < |text| - 1 ==> !(text[p] == '@' && IsWordChar(text[p + 1]))
  {
    forall p | 0 <= p < |text| - 1 && text[p] == '@' && IsWordChar(text[p + 1])
      ensures Usernames(text) != []
    {
      EveryMentionFound(text, 0, p);
      assert Spans(text, 0) != [];
      assert MatchedNames(text)[0] in MatchedNames(text);
    }
    if Usernames(text) != [] {
      var names := MatchedNames(text);
      assert names != [];
      var sp := Spans(text, 0)[0];
      assert IsMatch(text, sp);
      var p := sp.start - 1;
      assert text[p] == '@' && IsWordChar(text[p + 1]);
    }
  }

  /** A row of the user table. */
  datatype Account = Account(id: int, username: string)

  /** `type: 'post' | 'comment'`. */
  datatype MentionType = PostMention | CommentMention

  /** A saved mention: who is mentioned, by whom, and from which post or comment. */
  datatype Mention = Mention(mentionedUser: int, createdBy: int, sourcePost: Option<int>, sourceComment: Option<int>,
    kind: MentionType)

  /** The arguments of `detectMentions` besides the text. */
  datatype Source = Source(createdById: int, isPost: bool, postId: Option<int>, commentId: Option<int>)

  /** `postId ? { id: postId } : undefined`: an absent or zero id gives no reference. */
  function SourceRef(id: Option<int>): (r: Option<int>)
    ensures r.Some? ==> r == id && r.value != 0
  {
    if id.Some? && id.value != 0 then id else None
  }

  /** The `where` of `mentionRepo.findOne`. A condition whose value is `undefined` is dropped,
      so without a post id (comment id) a mention from any post (comment) matches. */
  predicate FindMatches(m: Mention, mentioned: int, src: Source)
  {
    && m.mentionedUser == mentioned && m.createdBy == src.createdById
    && (SourceRef(src.postId).Some? ==> m.sourcePost == SourceRef(src.postId))
    && (SourceRef(src.commentId).Some? ==> m.sourceComment == SourceRef(src.commentId))
  }

  /** `await mentionRepo.findOne(...)` is truthy. */
  predicate Exists(ms: seq<Mention>, mentioned: int, src: Source)
  {
    exists m :: m in ms && FindMatches(m, mentioned, src)
  }

  /** `mentionRepo.create({ mentionedUser, createdBy, sourcePost, sourceComment, type })`. */
  function NewMention(u: Account, src: Source): Mention
  {
    Mention(u.id, src.createdById, SourceRef(src.postId), SourceRef(src.commentId),
      if src.isPost then PostMention else CommentMention)
  }

  /** The mentions the loop saves, in order, when it runs over `users` on a table that held
      `existing`: each iteration sees the mentions the earlier ones saved. */
  function Saved(existing: seq<Mention>, users: seq<Account>, src: Source): (r: seq<Mention>)
    ensures |r| <= |users|
  {
    if users == [] then []
    else
      var before := Saved(existing, users[..|users| - 1], src);
      var u := users[|users| - 1];
      if u.id == src.createdById || Exists(existing + before, u.id, src) then before
      else before + [NewMention(u, src)]
  }

  /** `where('user.username IN (:...usernames)')`: the rows of the user table, in the order
      the table returns them, whose username was written. */
  function InList(usernames: seq<string>): Account -> bool
  {
    (a: Account) => a.username in usernames
  }

  /** The mention table after `detectMentions(text, ...)` on a table holding `existing`, with
      `directory` the user table. */
  function DetectOutcome(existing: seq<Mention>, text: string, directory: seq<Account>, src: Source): seq<Mention>
  {
    var usernames := Usernames(text);
    if |usernames| == 0 then existing
    else existing + Saved(existing, Filter(directory, InList(usernames)), src)
  }

  /** Every saved mention names one of the users, never the author, and carries the author,
      the source references and the type `'post'` exactly when `isPost`. */
  lemma {:induction false} SavedShape(existing: seq<Mention>, users: seq<Account>, src: Source, m: Mention)
    requires m in Saved(existing, users, src)
    ensures m.mentionedUser != src.createdById && m.createdBy == src.createdById
    ensures exists u :: u in users && u.id == m.mentionedUser
    ensures m.sourcePost == SourceRef(src.postId) && m.sourceComment == SourceRef(src.commentId)
    ensures m.kind == PostMention <==> src.isPost
  {
    var n := |users| - 1;
    var before := Saved(existing, users[..n], src);
    if m in before {
      SavedShape(existing, users[..n], src, m);
      var u :| u in users[..n] && u.id == m.mentionedUser;
      assert u in users;
    } else {
      assert users[n] in users;
    }
  }

  /** When the loop saves a mention, no mention the `findOne` would match was in the table,
      neither one from before nor one the loop saved earlier. */
  lemma {:induction false} SavedOnlyIfAbsent(existing: seq<Mention>, users: seq<Account>, src: Source, k: nat)
    requires k < |Saved(existing, users, src)|
    ensures var r := Saved(existing, users, src);
      !Exists(existing + r[..k], r[k].mentionedUser, src)
  {
    var n := |users| - 1;
    var before := Saved(existing, users[..n], src);
    var r := Saved(existing, users, src);
    if k < |before| {
      SavedOnlyIfAbsent(existing, users[..n], src, k);
      assert r[..k] == before[..k];
      assert r[k] == before[k];
    } else {
      assert r == before + [NewMention(users[n], src)];
      assert r[..k] == before;
    }
  }

  /** The columns that identify a mention. */
  function Key(m: Mention): (int, int, Option<int>, Option<int>)
  {
    (m.mentionedUser, m.createdBy, m.sourcePost, m.sourceComment)
  }

  /** No mention is saved twice: every saved mention differs in (mentioned user, author, post,
      comment) from every mention before it in the table. */
  lemma {:induction false} NoDuplicateMention(existing: seq<Mention>, users: seq<Account>, src: Source, i: nat, j: nat)
    requires var t := existing + Saved(existing, users, src); i < j < |t| && |existing| <= j
    ensures var t := existing + Saved(existing, users, src); Key(t[i]) != Key(t[j])
  {
    var r := Saved(existing, users, src);
    var t := existing + r;
    var k := j - |existing|;
    assert t[j] == r[k];
    var m := r[k];
    SavedShape(existing, users, src, m);
    SavedOnlyIfAbsent(existing, users, src, k);
    assert t[i] in existing + r[..k] by {
      if i < |existing| {
        assert t[i] == existing[i];
      } else {
        assert t[i] == r[..k][i - |existing|];
      }
    }
    if Key(t[i]) == Key(m) {
      assert FindMatches(t[i], m.mentionedUser, src);
    }
  }

  /** `detectMentions` only adds to the table, nothing when the text names no one, and each
      mention it adds names a user of the table whose username the text mentions. */
  lemma {:induction false} DetectOutcomeShape(existing: seq<Mention>, text: string, directory: seq<Account>, src: Source,
    m: Mention)
    ensures |DetectOutcome(existing, text, directory, src)| >= |existing|
    ensures DetectOutcome(existing, text, directory, src)[..|existing|] == existing
    ensures Usernames(text) == [] ==> DetectOutcome(existing, text, directory, src) == existing
    ensures m in DetectOutcome(existing, text, directory, src)[|existing|..] ==>
      && m.mentionedUser != src.createdById
      && exists u :: u in directory && u.id == m.mentionedUser && u.username in Usernames(text)
  {
    var usernames := Usernames(text);
    if |usernames| != 0 {
      var users := Filter(directory, InList(usernames));
      var t := DetectOutcome(existing, text, directory, src);
      assert t[|existing|..] == Saved(existing, users, src);
      if m in t[|existing|..] {
        SavedShape(existing, users, src, m);
        var u :| u in users && u.id == m.mentionedUser;
        FilterMembers(directory, InList(usernames));
        assert u in directory && u.username in usernames;
      }
    }
  }

  /** The mention table. */
  class MentionStore {
    var mentions: seq<Mention>

    constructor(initial: seq<Mention>)
      ensures mentions == initial
    {
      mentions := initial;
    }

    /** `mentionRepo.save(mention)`. */
    method Save(m: Mention)
      modifies this
      ensures mentions == old(mentions) + [m]
    {
      mentions := mentions + [m];
    }
  }

  /** `detectMentions(text, createdById, isPost, postId, commentId)`. */
  method DetectMentions(store: MentionStore, text: string, src: Source, directory: seq<Account>)
    modifies store
    ensures store.mentions == DetectOutcome(old(store.mentions), text, directory, src)
  {
    var usernames := Usernames(text);
    if |usernames| == 0 {
      return;
    }
    var users := Filter(directory, InList(usernames));
    ghost var existing := store.mentions;
    var i := 0;
    while i < |users|
      invariant 0 <= i <= |users|
      invariant store.mentions == existing + Saved(existing, users[..i], src)
    {
      var mentionedUser := users[i];
      assert users[..i + 1][..i] == users[..i] && users[..i + 1][i] == mentionedUser;
      if mentionedUser.id == src.createdById {
        i := i + 1;
        continue;
      }
      var found := Exists(store.mentions, mentionedUser.id, src);
      if found {
        i := i + 1;
        continue;
      }
      store.Save(NewMention(mentionedUser, src));
      i := i + 1;
    }
    assert users[..i] == users;
  }
}
