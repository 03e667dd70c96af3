/** The app's shared state: the signed-in user's chip balance, the feed of posts, the
    giveaways and the queue of coin animations, with the operations the screens call on it.
    Generated ids and timestamps come in as parameters. */
module AppContext {
  import opened Wrappers
  import opened Seqs

  datatype Comment = Comment(
    id: string,
    userId: string,
    userName: string,
    userAvatar: string,
    content: string,
    timestamp: string,
    likes: int)

  datatype Post = Post(
    id: string,
    userId: string,
    userName: string,
    userAvatar: string,
    content: string,
    image: Option<string>,
    likes: int,
    comments: seq<Comment>,
    timestamp: string,
    isLiked: bool)

  datatype GiveawayStatus = Active | Upcoming | Ended

  datatype Winner = Winner(userId: string, userName: string, userAvatar: string)

  datatype Giveaway = Giveaway(
    id: string,
    title: string,
    description: string,
    image: string,
    entryCost: int,
    totalEntries: int,
    endDate: string,
    status: GiveawayStatus,
    prize: string,
    winner: Option<Winner>)

  /** The signed-in user (badges and statistics are not part of this model). */
  datatype User = User(
    id: string,
    name: string,
    username: string,
    avatar: string,
    memberSince: string,
    chips: int)

  datatype CoinAnimation = CoinAnimation(id: string, amount: int, x: int, y: int)

  datatype Position = Position(x: int, y: int)

  // ---------------------------------------------------------------- the list updates

  /** A post with its like flipped: one like fewer when it was liked, one more when not. */
  function ToggledPost(p: Post): Post {
    p.(isLiked := !p.isLiked, likes := if p.isLiked then p.likes - 1 else p.likes + 1)
  }

  /** `posts.map(...)` in `toggleLike`: the posts with id `postId` toggled, the others kept. */
  function LikeToggled(posts: seq<Post>, postId: string): (r: seq<Post>)
    ensures |r| == |posts|
  {
    seq(|posts|, i requires 0 <= i < |posts| =>
      if posts[i].id == postId then ToggledPost(posts[i]) else posts[i])
  }

  /** Toggling flips the flag, moves the count by one in the direction of the new flag, and
      touches nothing else: not the other posts, not the other fields. */
  lemma LikeToggledEffect(posts: seq<Post>, postId: string)
    ensures forall i :: 0 <= i < |posts| && posts[i].id != postId ==> LikeToggled(posts, postId)[i] == posts[i]
    ensures forall i :: 0 <= i < |posts| && posts[i].id == postId ==>
      var q := LikeToggled(posts, postId)[i];
      && q.isLiked == !posts[i].isLiked
      && q.likes == posts[i].likes + (if q.isLiked then 1 else -1)
      && q.(isLiked := posts[i].isLiked, likes := posts[i].likes) == posts[i]
  {
  }

  /** Toggling twice with the same id gives the posts back. */
  lemma LikeToggledTwice(posts: seq<Post>, postId: string)
    ensures LikeToggled(LikeToggled(posts, postId), postId) == posts
  {
    var once := LikeToggled(posts, postId);
    var twice := LikeToggled(once, postId);
    forall i | 0 <= i < |posts| ensures twice[i] == posts[i] {
      if posts[i].id == postId {
        assert once[i] == ToggledPost(posts[i]);
        assert twice[i] == ToggledPost(once[i]);
      }
    }
  }

  /** The likes from other users, the count without the user's own like, never changes. */
  lemma LikeToggledKeepsOthersLikes(posts: seq<Post>, postId: string)
    ensures forall i :: 0 <= i < |posts| ==>
      var q := LikeToggled(posts, postId)[i];
      q.likes - (if q.isLiked then 1 else 0) == posts[i].likes - (if posts[i].isLiked then 1 else 0)
  {
  }

  /** `posts.map(...)` in `addComment`: `comment` appended to the posts with id `postId`. */
  function Commented(posts: seq<Post>, postId: string, comment: Comment): (r: seq<Post>)
    ensures |r| == |posts|
  {
    seq(|posts|, i requires 0 <= i < |posts| =>
      if posts[i].id == postId then posts[i].(comments := posts[i].comments + [comment]) else posts[i])
  }

  /** Commenting puts exactly one comment, the new one, at the end of the matching post's
      comments, and changes nothing else. */
  lemma CommentedEffect(posts: seq<Post>, postId: string, comment: Comment)
    ensures forall i :: 0 <= i < |posts| && posts[i].id != postId ==> Commented(posts, postId, comment)[i] == posts[i]
    ensures forall i :: 0 <= i < |posts| && posts[i].id == postId ==>
      var q := Commented(posts, postId, comment)[i];
      && |q.comments| == |posts[i].comments| + 1
      && q.comments[..|posts[i].comments|] == posts[i].comments
      && q.comments[|posts[i].comments|] == comment
      && q.(comments := posts[i].comments) == posts[i]
  {
    var r := Commented(posts, postId, comment);
    forall i | 0 <= i < |posts| && posts[i].id == postId
      ensures r[i].comments[..|posts[i].comments|] == posts[i].comments
    {
      assert r[i].comments == posts[i].comments + [comment];
    }
  }

  /** When no post has the id, commenting changes no post. */
  lemma CommentedNoMatch(posts: seq<Post>, postId: string, comment: Comment)
    requires forall i :: 0 <= i < |posts| ==> posts[i].id != postId
    ensures Commented(posts, postId, comment) == posts
  {
  }

  /** `giveaways.map(...)` in `enterGiveaway`: one more entry in the giveaways with that id. */
  function Entered(giveaways: seq<Giveaway>, giveawayId: string): (r: seq<Giveaway>)
    ensures |r| == |giveaways|
  {
    seq(|giveaways|, i requires 0 <= i < |giveaways| =>
      if giveaways[i].id == giveawayId then giveaways[i].(totalEntries := giveaways[i].totalEntries + 1)
      else giveaways[i])
  }

  /** Entering adds one to the matching giveaway's entries and changes nothing else. */
  lemma EnteredEffect(giveaways: seq<Giveaway>, giveawayId: string)
    ensures forall i :: 0 <= i < |giveaways| ==>
      var g := Entered(giveaways, giveawayId)[i];
      && g.totalEntries == giveaways[i].totalEntries + (if giveaways[i].id == giveawayId then 1 else 0)
      && g.(totalEntries := giveaways[i].totalEntries) == giveaways[i]
  {
  }

  function OtherId(id: string): CoinAnimation -> bool {
    (a: CoinAnimation) => a.id != id
  }

  /** `coinAnimations.filter(anim => anim.id !== id)`: no animation with the id remains, and
      every other one stays, in order and as often as it was queued. */
  function WithoutAnimation(anims: seq<CoinAnimation>, id: string): (rest: seq<CoinAnimation>)
    ensures forall i :: 0 <= i < |rest| ==> rest[i].id != id
    ensures forall i :: 0 <= i < |anims| && anims[i].id != id ==> multiset(rest)[anims[i]] == multiset(anims)[anims[i]]
    ensures Subsequence(rest, anims)
  {
    Filter(anims, OtherId(id))
  }

  /** Removing an id that no animation has changes nothing; so removing twice is removing once. */
  lemma {:induction false} WithoutAbsent(anims: seq<CoinAnimation>, id: string)
    requires forall i :: 0 <= i < |anims| ==> anims[i].id != id
    ensures WithoutAnimation(anims, id) == anims
    decreases |anims|
  {
    if anims != [] {
      WithoutAbsent(anims[1..], id);
    }
  }

  lemma WithoutAnimationIdempotent(anims: seq<CoinAnimation>, id: string)
    ensures WithoutAnimation(WithoutAnimation(anims, id), id) == WithoutAnimation(anims, id)
  {
    WithoutAbsent(WithoutAnimation(anims, id), id);
  }

  /** An animation queued under a fresh id and then removed by that id leaves the queue as it
      was. */
  lemma QueueThenRemove(anims: seq<CoinAnimation>, a: CoinAnimation)
    requires forall i :: 0 <= i < |anims| ==> anims[i].id != a.id
    ensures WithoutAnimation(anims + [a], a.id) == anims
  {
    FilterAppend(anims, [a], OtherId(a.id));
    WithoutAbsent(anims, a.id);
    assert Filter([a], OtherId(a.id)) == [];
  }

  // ---------------------------------------------------------------- the store

  /** The store. Every queued coin animation is for a positive amount. */
  class AppState {
    var user: User
    var posts: seq<Post>
    var giveaways: seq<Giveaway>
    var coinAnimations: seq<CoinAnimation>
    const notifications: int

    ghost predicate Valid()
      reads this
    {
      forall i :: 0 <= i < |coinAnimations| ==> coinAnimations[i].amount > 0
    }

    /** The initial state: the given user, posts and giveaways, no animations, 3 notifications. */
    constructor(initialUser: User, initialPosts: seq<Post>, initialGiveaways: seq<Giveaway>)
      ensures Valid()
      ensures user == initialUser && posts == initialPosts && giveaways == initialGiveaways
      ensures coinAnimations == [] && notifications == 3
    {
      user := initialUser;
      posts := initialPosts;
      giveaways := initialGiveaways;
      coinAnimations := [];
      notifications := 3;
    }

    /** `updateChips`: the balance moves by `amount`, with no floor; a gain with a screen
        position also queues an animation with id "coin-" followed by `now`. */
    method UpdateChips(amount: int, position: Option<Position>, now: string)
      requires Valid()
      modifies this
      ensures Valid()
      ensures user == old(user).(chips := old(user.chips) + amount)
      ensures coinAnimations ==
        if amount > 0 && position.Some? then
          old(coinAnimations) + [CoinAnimation("coin-" + now, amount, position.value.x, position.value.y)]
        else old(coinAnimations)
      ensures posts == old(posts) && giveaways == old(giveaways)
    {
      user := user.(chips := user.chips + amount);
      if amount > 0 && position.Some? {
        var animationId := "coin-" + now;
        coinAnimations := coinAnimations + [CoinAnimation(animationId, amount, position.value.x, position.value.y)];
      }
    }

    /** `removeCoinAnimation`: every animation with the id leaves the queue. */
    method RemoveCoinAnimation(id: string)
      requires Valid()
      modifies this
      ensures Valid()
      ensures coinAnimations == WithoutAnimation(old(coinAnimations), id)
      ensures user == old(user) && posts == old(posts) && giveaways == old(giveaways)
    {
      coinAnimations := WithoutAnimation(coinAnimations, id);
    }

    /** `toggleLike`: the matching posts' likes are toggled. */
    method ToggleLike(postId: string)
      requires Valid()
      modifies this
      ensures Valid()
      ensures posts == LikeToggled(old(posts), postId)
      ensures user == old(user) && giveaways == old(giveaways) && coinAnimations == old(coinAnimations)
    {
      posts := LikeToggled(posts, postId);
    }

    /** `addComment`: the user's comment, with id "c" followed by `now`, goes on the matching
        posts, and the user earns 10 chips whether or not a post matched. */
    method AddComment(postId: string, content: string, now: string, timestamp: string)
      requires Valid()
      modifies this
      ensures Valid()
      ensures posts == Commented(old(posts), postId,
        Comment("c" + now, old(user).id, old(user).name, old(user).avatar, content, timestamp, 0))
      ensures user == old(user).(chips := old(user.chips) + 10)
      ensures giveaways == old(giveaways) && coinAnimations == old(coinAnimations)
    {
      var newComment := Comment("c" + now, user.id, user.name, user.avatar, content, timestamp, 0);
      posts := Commented(posts, postId, newComment);
      UpdateChips(10, None, now);
    }

    /** `enterGiveaway`: with enough chips, one more entry on the matching giveaway and the
        entry cost taken from the balance; otherwise nothing changes. The result says which. */
    method EnterGiveaway(giveawayId: string, entryCost: int, now: string) returns (entered: bool)
      requires Valid()
      modifies this
      ensures Valid()
      ensures entered == (old(user.chips) >= entryCost)
      ensures entered ==> giveaways == Entered(old(giveaways), giveawayId)
      ensures entered ==> user == old(user).(chips := old(user.chips) - entryCost)
      ensures !entered ==> giveaways == old(giveaways) && user == old(user)
      ensures entered && entryCost >= 0 ==> 0 <= user.chips <= old(user.chips)
      ensures posts == old(posts) && coinAnimations == old(coinAnimations)
    {
      if user.chips >= entryCost {
        giveaways := Entered(giveaways, giveawayId);
        UpdateChips(-entryCost, None, now);
        return true;
      }
      return false;
    }
  }
}
