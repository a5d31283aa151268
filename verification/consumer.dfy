/**
 RabbitMQConsumer's status aggregation: one immutable QueueState per
 configured consume item, built fresh on every request. The channel
 directory's status lookup is a parameter.
 */
module Consumer {

  /** RabbitmqConsumeItem, as far as the status needs it. */
  datatype ConsumeItem = ConsumeItem(queueName: string, appId: string)

  /** QueueState: every field final, so a value of it is a snapshot. */
  datatype QueueState = QueueState(name: string, appId: string, consumed: bool)

  /**
   getQueues: the i-th entry describes the i-th configured item, carries its
   queue name and application id unchanged and reports the directory's
   status for that queue name.
   */
  method GetQueues(items: seq<ConsumeItem>, status: string -> bool) returns (stats: seq<QueueState>)
    ensures |stats| == |items|
    ensures forall i :: 0 <= i < |items| ==>
              && stats[i].name == items[i].queueName
              && stats[i].appId == items[i].appId
              && stats[i].consumed == status(items[i].queueName)
  {
    stats := [];
    var k := 0;
    while k < |items|
      invariant 0 <= k <= |items|
      invariant |stats| == k
      invariant forall i :: 0 <= i < k ==>
                  stats[i] == QueueState(items[i].queueName, items[i].appId, status(items[i].queueName))
    {
      var queue := items[k];
      var state := QueueState(queue.queueName, queue.appId, status(queue.queueName));
      stats := stats + [state];
      k := k + 1;
    }
  }
}
