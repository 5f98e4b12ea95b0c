// The two outcomes of replacing a process by a program.
module Outcomes {
  import opened Words
  import opened Ledgers
  import opened PageTables
  import opened Spaces
  import opened Swap
  import opened Totals
  import opened Images

  /** Slot `proc` holds the program `bytes`, ready to start, and nothing else: every page and every page
      table it had before is on a free list. The staging slot `image`, unused before, is unused again;
      nobody else is touched. */
  ghost predicate Replaced(tables: seq<Table>, live: seq<set<nat>>, ram: Ram, own: seq<Pages>, procs: seq<Process>,
                           tables': seq<Table>, live': seq<set<nat>>, ram': Ram, own': seq<Pages>, procs': seq<Process>,
                           l': Ledger, proc: nat, image: nat, bytes: seq<byte>)
  {
    && proc < 10 && FirstFree(procs, image) && image < 10 && ProcsButTwo(procs, procs', proc, image)
    && ApartTwo(tables, live, ram, own, tables', live', ram', own', proc, image)
    && procs'[image].state == UNUSED && NobodyOwns(own', own[proc])
    && Released(l', own[proc], tables[proc], live[proc])
    && FreshProgram(ram', own'[proc], procs'[proc], bytes)
    && procs'[proc].state == READY && procs'[proc].pid == procs[proc].pid && procs'[proc].waitPid == procs[proc].waitPid
  }

  /** Every process and the kernel's own table set are exactly as they were, and as much memory is free. */
  ghost predicate Untouched(tables: seq<Table>, live: seq<set<nat>>, ram: Ram, own: seq<Pages>, procs: seq<Process>,
                            l: Ledger,
                            tables': seq<Table>, live': seq<set<nat>>, ram': Ram, own': seq<Pages>,
                            procs': seq<Process>, l': Ledger)
  {
    UsedKept(tables, live, ram, own, procs, tables', live', ram', own', procs') && FreeBytes(l') == FreeBytes(l)
  }
}
