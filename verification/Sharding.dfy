/** Accounts to shards and shards to queues. The hash is any function. */
module Sharding {
  import opened Text

  const CMD_QUEUE_PREFIX := "telebos:cmd:telegram:shard_"
  const JOBS_QUEUE_PREFIX := "telebos:jobs:queue:shard_"
  const DEFAULT_CMD_QUEUE := "telebos:cmd:telegram"
  const DEFAULT_JOBS_QUEUE := "telebos:jobs:queue"

  function AccountShard(hash: string -> nat, account: string, total: int): int {
    if total <= 1 then 0
    else
      var raw := Strip(account);
      if raw == "" then 0 else hash(raw) % total
  }

  predicate InShard(hash: string -> nat, account: string, shard: int, total: int) {
    total <= 1 || AccountShard(hash, account, total) == shard
  }

  function CommandQueue(shard: int, total: int): string {
    if total <= 1 && shard == 0 then DEFAULT_CMD_QUEUE else CMD_QUEUE_PREFIX + DecInt(shard)
  }

  function JobsQueue(shard: int, total: int): string {
    if total <= 1 && shard == 0 then DEFAULT_JOBS_QUEUE else JOBS_QUEUE_PREFIX + DecInt(shard)
  }

  /** With two shards or more, exactly one index claims an account, and it is in range. */
  lemma ShardsPartition(hash: string -> nat, account: string, total: int)
    requires total >= 2
    ensures 0 <= AccountShard(hash, account, total) < total
    ensures forall i :: InShard(hash, account, i, total) <==> i == AccountShard(hash, account, total)
  {
  }

  /** The shard of an account with an id is in range and congruent to the hash of the id
      without the white space around it; an account without one, and every account of a
      single shard, is in shard 0. */
  lemma ShardExactly(hash: string -> nat, l: string, id: string, r: string, total: int)
    requires AllSpace(l) && Bare(id) && AllSpace(r)
    ensures var s := AccountShard(hash, l + id + r, total);
            if total <= 1 || id == "" then s == 0 else 0 <= s < total && exists q: int :: hash(id) == q * total + s
    ensures total <= 1 ==> forall i :: InShard(hash, l + id + r, i, total)
  {
    StripExactly(l, id, r);
    if total > 1 && id != "" {
      assert hash(id) == (hash(id) / total) * total + hash(id) % total;
    }
  }

  /** The names that the backend and its runners agree on. */
  lemma QueueNames(shard: int, total: int)
    ensures CommandQueue(shard, total) == if total <= 1 && shard == 0 then "telebos:cmd:telegram"
                                          else "telebos:cmd:telegram:shard_" + DecInt(shard)
    ensures JobsQueue(shard, total) == if total <= 1 && shard == 0 then "telebos:jobs:queue"
                                       else "telebos:jobs:queue:shard_" + DecInt(shard)
  {
  }

  lemma PrefixedInjective(prefix: string, i: int, j: int)
    requires prefix + DecInt(i) == prefix + DecInt(j)
    ensures i == j
  {
    PrefixCancels(prefix, DecInt(i), DecInt(j));
    DecIntInjective(i, j);
  }

  /** Queue names tell shard indices apart. */
  lemma QueuesInjective(i: int, j: int, total: int)
    ensures CommandQueue(i, total) == CommandQueue(j, total) <==> i == j
    ensures JobsQueue(i, total) == JobsQueue(j, total) <==> i == j
  {
    assert |CMD_QUEUE_PREFIX| > |DEFAULT_CMD_QUEUE| && |JOBS_QUEUE_PREFIX| > |DEFAULT_JOBS_QUEUE|;
    if CommandQueue(i, total) == CommandQueue(j, total) && !(total <= 1 && (i == 0 || j == 0)) {
      PrefixedInjective(CMD_QUEUE_PREFIX, i, j);
    }
    if JobsQueue(i, total) == JobsQueue(j, total) && !(total <= 1 && (i == 0 || j == 0)) {
      PrefixedInjective(JOBS_QUEUE_PREFIX, i, j);
    }
  }

  /** Command and job queues never coincide, for any indices and any numbers of shards. */
  lemma KindsDisjoint(i: int, j: int, total: int, total': int)
    ensures CommandQueue(i, total) != JobsQueue(j, total')
  {
    assert CommandQueue(i, total)[8] == 'c';
    assert JobsQueue(j, total')[8] == 'j';
  }

  /** A message put on the command queue of an account's shard is read by the runner
      with index `runner` exactly when that runner owns the account. */
  lemma RoutedToOwner(hash: string -> nat, account: string, runner: int, total: int)
    requires total >= 2
    ensures CommandQueue(runner, total) == CommandQueue(AccountShard(hash, account, total), total)
            <==> InShard(hash, account, runner, total)
    ensures JobsQueue(runner, total) == JobsQueue(AccountShard(hash, account, total), total)
            <==> InShard(hash, account, runner, total)
  {
    QueuesInjective(runner, AccountShard(hash, account, total), total);
  }
}
