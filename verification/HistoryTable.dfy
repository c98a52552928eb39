/** The cached transaction history: the entity, and the table `transactions` that
    internal/domain/transaction/storage/sqlite keeps it in, keyed by UniqueID. */
module HistoryTable {
  import opened Text
  import opened PendingRegistry

  /** entity.Transaction.  The fields from `isSwap` on are empty in stored rows. */
  datatype Tx = Tx(
    id: string, uniqueId: string, hash: string, from: Address, to: Address, value: string, asset: string,
    category: string, blockNumber: nat, timestamp: Time, cachedAt: Time,
    gasFeeEth: string, gasFeeUsd: string,
    isSwap: bool, tokenInSym: string, tokenInVal: string, tokenOutSym: string, tokenOutVal: string)

  type Table = map<string, Tx>

  /** INSERT ... ON CONFLICT(unique_id) DO UPDATE SET cached_at. */
  function Upserted(t: Table, tx: Tx): Table {
    if tx.uniqueId in t then t[tx.uniqueId := t[tx.uniqueId].(cachedAt := tx.cachedAt)]
    else t[tx.uniqueId := tx]
  }

  function WithGas(tx: Tx, hash: string, eth: string, usd: string): Tx {
    if tx.hash == hash then tx.(gasFeeEth := eth, gasFeeUsd := usd) else tx
  }

  /** UPDATE ... WHERE hash = ?. */
  function GasUpdated(t: Table, hash: string, eth: string, usd: string): Table {
    map u | u in t :: WithGas(t[u], hash, eth, usd)
  }

  class Storage {
    var rows: Table

    constructor (rows: Table)
      ensures this.rows == rows
    {
      this.rows := rows;
    }

    method Upsert(tx: Tx)
      modifies this
      ensures rows == Upserted(old(rows), tx)
    {
      if tx.uniqueId in rows {
        rows := rows[tx.uniqueId := rows[tx.uniqueId].(cachedAt := tx.cachedAt)];
      } else {
        rows := rows[tx.uniqueId := tx];
      }
    }

    method UpdateGasFees(hash: string, eth: string, usd: string)
      modifies this
      ensures rows == GasUpdated(old(rows), hash, eth, usd)
    {
      rows := map u | u in rows :: WithGas(rows[u], hash, eth, usd);
    }
  }
}
