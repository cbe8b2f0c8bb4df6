/**
 * `LocalRetval`, the in-process return channel: both ends of a channel are
 * one shared, mutable `Option` cell.  Sending overwrites the cell, receiving
 * hands back the receiver itself, and reading it afterwards yields what was
 * sent last.
 */
module LocalRetval {
  import opened Wrappers

  /** `Rc<RefCell<Option<T>>>`: the cell both ends point at. */
  class SharedCell<T> {
    var content: Option<T>

    constructor()
      ensures content == None
    {
      content := None;
    }
  }

  /** `create`: one fresh cell, empty, handed out twice. */
  method Create<T>() returns (tx: SharedCell<T>, rx: SharedCell<T>)
    ensures fresh(tx) && rx == tx
    ensures tx.content == None
  {
    var x := new SharedCell<T>();
    tx, rx := x, x;
  }

  /**
   * `send`: replaces the content, dropping any earlier value.  The error
   * type is `Infallible`, so the result is always `Ok(())`.
   */
  method Send<T>(tx: SharedCell<T>, msg: T) returns (r: Result<(), ()>)
    modifies tx
    ensures tx.content == Some(msg)
    ensures r == Ok(())
  {
    tx.content := Some(msg);
    r := Ok(());
  }

  /** `recv`: the receive result is the receiver itself. */
  method Recv<T>(rx: SharedCell<T>) returns (res: SharedCell<T>)
    ensures res == rx
  {
    res := rx;
  }

  /** After `create` and `send(tx, v)`, the receive result holds `Some(v)`. */
  method RoundTrip<T>(v: T) returns (got: Option<T>)
    ensures got == Some(v)
  {
    var tx, rx := Create<T>();
    var sent := Send(tx, v);
    var res := Recv(rx);
    got := res.content;
  }

  /** Two sends on one channel: the receiver sees the second value only. */
  method LastSendWins<T>(first: T, second: T) returns (got: Option<T>)
    ensures got == Some(second)
  {
    var tx, rx := Create<T>();
    var sent := Send(tx, first);
    sent := Send(tx, second);
    var res := Recv(rx);
    got := res.content;
  }

  /** Before anything is sent, the receive result is empty. */
  method NothingSent<T>() returns (got: Option<T>)
    ensures got == None
  {
    var tx, rx := Create<T>();
    var res := Recv(rx);
    got := res.content;
  }
}
