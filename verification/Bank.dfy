/** The sparse bank store of the memory simulator (`sim/DRAMSim2/Bank.cpp`): an array of linked lists,
    one list per column, that refines a finite map from (column, row) to data. */
module Banks {

  /** The words of one burst. */
  type Data = seq<int>

  type Contents = map<(nat, nat), Data>

  /** What a read of an unwritten row returns: a zeroed burst with a tracer value in its first word. */
  function Tracer(burstWords: nat): Data
    requires burstWords >= 1
  { [0xdeadbeef] + seq(burstWords - 1, _ => 0) }

  function Lookup(contents: Contents, column: nat, row: nat, burstWords: nat): Data
    requires burstWords >= 1
  { if (column, row) in contents then contents[(column, row)] else Tracer(burstWords) }

  datatype BusPacketType = READ | WRITE | DATA

  class BusPacket {
    var busPacketType: BusPacketType
    var column: nat
    var row: nat
    var data: Data

    constructor (busPacketType: BusPacketType, column: nat, row: nat, data: Data)
      ensures this.busPacketType == busPacketType && this.column == column && this.row == row && this.data == data
    {
      this.busPacketType, this.column, this.row, this.data := busPacketType, column, row, data;
    }
  }

  class DataStruct {
    var row: nat
    var data: Data
    var next: DataStruct?
    /** The column whose list the node was put in. */
    ghost var column: nat

    constructor (row: nat, data: Data, next: DataStruct?, ghost column: nat)
      ensures this.row == row && this.data == data && this.next == next && this.column == column
    {
      this.row, this.data, this.next, this.column := row, data, next, column;
    }
  }

  /** The node that comes after position k of a list written down in the order of insertion. */
  ghost function Below(chain: seq<DataStruct>, k: nat): DataStruct?
    requires k <= |chain|
  { if k == 0 then null else chain[k - 1] }

  class Bank {
    const rowEntries: array<DataStruct?>
    const burstWords: nat
    /** The nodes of each column's list, oldest first: the list runs through them backwards. */
    ghost var chains: seq<seq<DataStruct>>
    ghost var nodes: set<DataStruct>
    ghost var contents: Contents
    /** Where in its column's list the node of a (column, row) is. */
    ghost var place: map<(nat, nat), nat>

    ghost predicate NodeOk(c: nat, k: nat)
      requires c < |chains| && k < |chains[c]|
      reads this, nodes
    {
      var node := chains[c][k];
      && node in nodes && node.column == c && node.next == Below(chains[c], k)
      && (c, node.row) in contents && contents[(c, node.row)] == node.data
      && (c, node.row) in place && place[(c, node.row)] == k
    }

    ghost predicate EntryOk(c: nat, r: nat)
      reads this, nodes
    {
      && (c, r) in place && c < |chains| && place[(c, r)] < |chains[c]|
      && chains[c][place[(c, r)]] in nodes && chains[c][place[(c, r)]].row == r
    }

    ghost predicate Valid()
      reads this, rowEntries, nodes
    {
      && burstWords >= 1
      && |chains| == rowEntries.Length
      && (forall c :: 0 <= c < |chains| ==> rowEntries[c] == Below(chains[c], |chains[c]|))
      && (forall c, k :: 0 <= c < |chains| && 0 <= k < |chains[c]| ==> NodeOk(c, k))
      && (forall c, r :: (c, r) in contents ==> EntryOk(c, r))
    }

    constructor (numCols: nat, burstWords: nat)
      requires burstWords >= 1
      ensures Valid() && fresh(rowEntries) && fresh(nodes)
      ensures rowEntries.Length == numCols && this.burstWords == burstWords && contents == map[]
    {
      rowEntries := new DataStruct?[numCols](_ => null);
      this.burstWords := burstWords;
      chains := seq(numCols, _ => []);
      nodes, contents, place := {}, map[], map[];
    }

    /** `searchForRow` on the list of a column: the node that holds `row`, or null if no write has put
        one there. */
    method SearchForRow(ghost column: nat, row: nat, start: DataStruct?) returns (found: DataStruct?)
      requires Valid() && column < |chains| && start == rowEntries[column]
      ensures found == null <==> (column, row) !in contents
      ensures found != null ==> found in nodes && found in chains[column] && found.row == row
    {
      var head := start;
      ghost var i := |chains[column]|;
      while head != null
        invariant 0 <= i <= |chains[column]| && head == Below(chains[column], i)
        invariant forall k :: i <= k < |chains[column]| ==> chains[column][k].row != row
        decreases i
      {
        assert NodeOk(column, i - 1);
        if head.row == row {
          return head;
        }
        head := head.next;
        i := i - 1;
      }
      assert (column, row) in contents ==> EntryOk(column, row);
      return null;
    }

    /** `read`: the data last written at the packet's column and row, or the tracer value. */
    method Read(busPacket: BusPacket)
      requires Valid() && busPacket.column < rowEntries.Length
      modifies busPacket
      ensures Valid()
      ensures busPacket.data == Lookup(contents, old(busPacket.column), old(busPacket.row), burstWords)
      ensures busPacket.busPacketType == DATA
      ensures busPacket.column == old(busPacket.column) && busPacket.row == old(busPacket.row)
    {
      var rowHeadNode := rowEntries[busPacket.column];
      var foundNode := SearchForRow(busPacket.column, busPacket.row, rowHeadNode);
      if foundNode == null {
        busPacket.data := Tracer(burstWords);
      } else {
        FoundHoldsData(busPacket.column, foundNode);
        busPacket.data := foundNode.data;
      }
      busPacket.busPacketType := DATA;
    }

    lemma FoundHoldsData(column: nat, node: DataStruct)
      requires Valid() && column < |chains| && node in chains[column]
      ensures (column, node.row) in contents && contents[(column, node.row)] == node.data
    {
      var k :| 0 <= k < |chains[column]| && chains[column][k] == node;
      assert NodeOk(column, k);
    }

    /** In every list no row occurs twice and no node occurs twice. */
    lemma RowsDistinct(column: nat, i: nat, j: nat)
      requires Valid() && column < |chains| && i < j < |chains[column]|
      ensures chains[column][i].row != chains[column][j].row
    {
      assert NodeOk(column, i) && NodeOk(column, j);
    }

    /** `write`: exactly one entry of the map changes; a column outside the bank is the error exit, which
        changes nothing. */
    method Write(busPacket: BusPacket) returns (ok: bool)
      requires Valid()
      modifies this, rowEntries, nodes
      ensures Valid() && fresh(nodes - old(nodes))
      ensures ok <==> busPacket.column < rowEntries.Length
      ensures contents == if ok then old(contents)[(busPacket.column, busPacket.row) := busPacket.data]
              else old(contents)
    {
      if busPacket.column >= rowEntries.Length {
        return false;
      }
      ok := true;
      var rowHeadNode := rowEntries[busPacket.column];
      var foundNode := SearchForRow(busPacket.column, busPacket.row, rowHeadNode);
      if foundNode == null {
        Insert(busPacket.column, busPacket.row, busPacket.data);
      } else {
        Replace(busPacket.column, foundNode, busPacket.data);
      }
    }

    /** The branch of `write` that finds no node: a new node at the head of the list. */
    method Insert(column: nat, row: nat, data: Data)
      requires Valid() && column < rowEntries.Length && (column, row) !in contents
      modifies this, rowEntries
      ensures Valid() && fresh(nodes - old(nodes))
      ensures contents == old(contents)[(column, row) := data]
    {
      var newRowNode := new DataStruct(row, data, rowEntries[column], column);
      rowEntries[column] := newRowNode;
      ghost var n := |chains[column]|;
      chains := chains[column := chains[column] + [newRowNode]];
      nodes := nodes + {newRowNode};
      contents := contents[(column, row) := data];
      place := place[(column, row) := n];
      forall c, k | 0 <= c < |chains| && 0 <= k < |chains[c]| ensures NodeOk(c, k) {
        assert !(c == column && k == n) ==> old(NodeOk(c, k));
      }
      forall c, r | (c, r) in contents ensures EntryOk(c, r) {
        assert (c, r) != (column, row) ==> old(EntryOk(c, r));
      }
    }

    /** The branch of `write` that finds a node: its data is replaced. */
    method Replace(column: nat, foundNode: DataStruct, data: Data)
      requires Valid() && column < rowEntries.Length && foundNode in chains[column] && foundNode in nodes
      modifies this, nodes
      ensures Valid() && nodes == old(nodes)
      ensures contents == old(contents)[(column, old(foundNode.row)) := data]
    {
      ghost var n :| 0 <= n < |chains[column]| && chains[column][n] == foundNode;
      assert NodeOk(column, n);
      foundNode.data := data;
      contents := contents[(column, foundNode.row) := data];
      forall c, k | 0 <= c < |chains| && 0 <= k < |chains[c]| ensures NodeOk(c, k) {
        assert old(NodeOk(c, k));
      }
      forall c, r | (c, r) in contents ensures EntryOk(c, r) {
        assert (c, r) != (column, foundNode.row) ==> old(EntryOk(c, r));
      }
    }
  }

  datatype Operation = Operation(column: nat, row: nat, data: Data)

  /** What a sequence of writes leaves in the map. */
  function Stored(ops: seq<Operation>): Contents {
    if ops == [] then map[]
    else
      var op := ops[|ops| - 1];
      Stored(ops[..|ops| - 1])[(op.column, op.row) := op.data]
  }

  predicate WritesTo(op: Operation, column: nat, row: nat) { op.column == column && op.row == row }

  /** k is the last write to (column, row). */
  ghost predicate LastWrite(ops: seq<Operation>, k: nat, column: nat, row: nat) {
    k < |ops| && WritesTo(ops[k], column, row) && forall j :: k < j < |ops| ==> !WritesTo(ops[j], column, row)
  }

  /** The map holds the last value written to each (column, row), and nothing where nothing was. */
  lemma {:induction false} LastWriteWins(ops: seq<Operation>, column: nat, row: nat)
    ensures forall k: nat :: LastWrite(ops, k, column, row) ==>
              (column, row) in Stored(ops) && Stored(ops)[(column, row)] == ops[k].data
    ensures (forall k :: 0 <= k < |ops| ==> !WritesTo(ops[k], column, row)) ==> (column, row) !in Stored(ops)
  {
    if ops != [] {
      var before, last := ops[..|ops| - 1], |ops| - 1;
      LastWriteWins(before, column, row);
      forall k: nat | LastWrite(ops, k, column, row)
        ensures (column, row) in Stored(ops) && Stored(ops)[(column, row)] == ops[k].data
      {
        if k != last {
          assert !WritesTo(ops[last], column, row);
          assert LastWrite(before, k, column, row);
        }
      }
      if (forall k :: 0 <= k < |ops| ==> !WritesTo(ops[k], column, row)) {
        assert !WritesTo(ops[last], column, row);
        assert forall k :: 0 <= k < |before| ==> before[k] == ops[k];
      }
    }
  }

  /** Any sequence of writes to a new bank. They stop at the first column that the bank does not have. */
  method WriteAll(ops: seq<Operation>, numCols: nat, burstWords: nat) returns (ok: bool, bank: Bank)
    requires burstWords >= 1
    ensures fresh(bank) && bank.Valid() && bank.rowEntries.Length == numCols && bank.burstWords == burstWords
    ensures ok <==> forall k :: 0 <= k < |ops| ==> ops[k].column < numCols
    ensures ok ==> bank.contents == Stored(ops)
  {
    bank := new Bank(numCols, burstWords);
    for i := 0 to |ops|
      invariant fresh(bank) && fresh(bank.rowEntries) && fresh(bank.nodes) && bank.Valid()
      invariant bank.rowEntries.Length == numCols && bank.burstWords == burstWords
      invariant forall k :: 0 <= k < i ==> ops[k].column < numCols
      invariant bank.contents == Stored(ops[..i])
    {
      var packet := new BusPacket(WRITE, ops[i].column, ops[i].row, ops[i].data);
      ok := bank.Write(packet);
      if !ok {
        return;
      }
      assert ops[..i + 1][..i] == ops[..i];
    }
    assert ops[..|ops|] == ops;
    ok := true;
  }

  /** ... and then one read. */
  method WriteThenRead(ops: seq<Operation>, numCols: nat, burstWords: nat, column: nat, row: nat)
    returns (ok: bool, data: Data)
    requires burstWords >= 1 && column < numCols
    ensures ok <==> forall k :: 0 <= k < |ops| ==> ops[k].column < numCols
    ensures ok ==> forall k: nat :: LastWrite(ops, k, column, row) ==> data == ops[k].data
    ensures ok && (forall k :: 0 <= k < |ops| ==> !WritesTo(ops[k], column, row)) ==>
              |data| == burstWords && data[0] == 0xDEADBEEF && forall i :: 1 <= i < |data| ==> data[i] == 0
  {
    var bank: Bank;
    data := [];
    ok, bank := WriteAll(ops, numCols, burstWords);
    if ok {
      var packet := new BusPacket(READ, column, row, []);
      bank.Read(packet);
      LastWriteWins(ops, column, row);
      data := packet.data;
    }
  }
}
