# CREDO particle-flux estimate, modelled in Dafny

This project models `particle_flux` from the CREDO education helpers. The
function estimates the cosmic-ray particle flux seen by a set of detecting
devices, from a table of detections. Each detection row carries a device
identifier, the height and width of the device's sensor, and a timestamp.

The function loops once over the distinct devices of the table, in order of
first appearance. For each device it does four things:

- It adds the sensor area of the device's first row (height × width × 10^-10)
  to `surface`.
- It sorts the device's timestamps and takes the gaps between consecutive
  detections.
- It drops every gap longer than 300 seconds, treating it as a session break.
- It adds the number of kept gaps plus one to `n`, and the kept gaps to `time`.

The result is `n / (surface * time)`.

The model has four modules:

- `Detections` (`detections.dfy`): the table as a sequence of `Detection`
  values. It defines the distinct devices in order of first appearance, a
  device's first row and its area, and a device's timestamps in table order.
- `Sessions` (`sessions.dfy`): one device's session. It covers the ascending
  sort, the consecutive gaps, the 300-second break filter, and the
  `(count, gap sum)` contribution.
- `ParticleFlux` (`flux.dfy`): the accumulation loop as a method
  (`Accumulators`). It is proved equal to a specification function
  (`Aggregate`) that sums the per-device totals over the distinct devices.
  This module also holds the final quotient (`Flux`) and the whole
  operation (`ParticleFlux`).
- `Multisets` (`multisets.dfy`): two generic facts about sequences and their
  multisets. The order-independence proofs use them.

Units and arithmetic:

- Timestamps are whole milliseconds, so the 300-second threshold is
  `BreakThreshold = 300000`.
- The area total is kept as the integer sum of height × width. The 10^-10
  scale (`AreaScale`) and the milliseconds-to-seconds conversion are applied
  only in `Flux`, which computes over exact reals.
- The quotient is `None` when `surface * time` is zero, and `Some(n / (surface × 10^-10 × seconds))` otherwise.

Two points of behaviour are easy to misread:

- **Session breaks.** A device adds the number of kept gaps plus one to `n`,
  not one count per session. For detections at 0, 400 and 410 seconds this
  is two, not three (`ExampleSessionBreak`). In general the count of a
  device is its number of detections minus its number of session breaks
  (`ContributionBounds`).
- **Zero denominator.** The function raises no error of its own. On an empty
  table it divides integer zero by zero, and Python raises
  ZeroDivisionError. On a non-empty table with zero kept time it divides by
  a floating zero, which gives infinity. The model returns `None` in both
  cases.

## Model

| member | source | states |
|---|---|---|
| Detections.Devices | CREDO/CREDO_functions.py:21 | the loop's devices are the table's distinct device identifiers: no repetitions, exactly the devices with a row, never more than the rows |
| Detections.DevicesInTableOrder | CREDO/CREDO_functions.py:21 | the distinct devices come in the order of their first rows in the table |
| Detections.FirstRow | CREDO/CREDO_functions.py:22 | for a device of the table, the index of its first row: that row belongs to the device and no earlier row does |
| Detections.FirstArea | CREDO/CREDO_functions.py:22-23 | the area a device adds is height × width of its first row in table order (the single row with that property) |
| Detections.Stamps | CREDO/CREDO_functions.py:24 | a device's timestamps are no more than the rows, and non-empty exactly when the device has a row |
| Detections.StampsLength | CREDO/CREDO_functions.py:24 | a device has exactly as many timestamps as it has rows |
| Detections.StampsCount | CREDO/CREDO_functions.py:24 | each timestamp value occurs as often as rows of the device carry it, so duplicate timestamps are all kept |
| Detections.StampsMembers | CREDO/CREDO_functions.py:24 | a value is among a device's timestamps exactly when some row of that device carries it |
| Detections.StampsIgnoreRowOrder | CREDO/CREDO_functions.py:24 | reordering the table's rows leaves the multiset of every device's timestamps unchanged |
| Sessions.InsertSorted | CREDO/CREDO_functions.py:25 | inserting into an ascending sequence keeps it ascending |
| Sessions.SortAscCorrect | CREDO/CREDO_functions.py:25 | the sort returns an ascending permutation of the timestamps (same multiset, same length) |
| Sessions.SortedUnique | CREDO/CREDO_functions.py:25 | two ascending sequences with the same multiset are equal, so the sorted order is determined by the timestamps alone |
| Sessions.ContributionIgnoresOrder | CREDO/CREDO_functions.py:24-30 | timestamps given in any order sort to the same sequence and give the same contribution |
| Sessions.Gaps | CREDO/CREDO_functions.py:26-27 | k timestamps give k - 1 gaps (none for zero or one), gap i being timestamp i + 1 minus timestamp i |
| Sessions.SortedGaps | CREDO/CREDO_functions.py:25-27 | a device with k timestamps has k - 1 gaps after sorting, all non-negative |
| Sessions.Kept | CREDO/CREDO_functions.py:28 | a value is kept exactly when it is a gap of at most 300 s; kept plus breaks is the number of gaps |
| Sessions.KeptMultiset | CREDO/CREDO_functions.py:28 | every gap of at most 300 s is kept as often as it occurs, and no longer gap is kept |
| Sessions.DeviceContribution | CREDO/CREDO_functions.py:29-30 | a device adds at least 1 to n and never more than its number of timestamps; with at most one timestamp it adds exactly 1 to n and 0 to time |
| Sessions.ContributionBounds | CREDO/CREDO_functions.py:26-30 | for sorted timestamps: count = detections - session breaks, between 1 and the detection count, equal to it exactly when no gap is a break; kept time between 0 and 300 s per kept gap |
| ParticleFlux.DeviceTotalsBounds | CREDO/CREDO_functions.py:22-30 | one device adds between 1 and its row count (the number of its rows in the table) to n, a non-negative area, and at most 300 s per kept gap to time |
| ParticleFlux.SingleDetection | CREDO/CREDO_functions.py:26-30 | a device with one detection adds 1 to n and 0 to time |
| ParticleFlux.Accumulators | CREDO/CREDO_functions.py:18-30 | the loop over the distinct devices leaves n, surface and time equal to the per-device totals summed over the distinct devices in order |
| ParticleFlux.Flux | CREDO/CREDO_functions.py:31 | the quotient is defined exactly when surface × time is non-zero, and then multiplied by surface × 10^-10 × seconds it gives n back |
| ParticleFlux.ParticleFlux | CREDO/CREDO_functions.py:17-31 | the result is the quotient of the accumulated totals; it is undefined for an empty table and when no device has two detections |
| ParticleFlux.AccumulateBounds | CREDO/CREDO_functions.py:21-30 | over distinct devices, n lies between the number of devices and their number of rows; time is at most 300 s per count beyond one per device; area is non-negative, and at least one per device when every sensor area is positive |
| ParticleFlux.AggregateBounds | CREDO/CREDO_functions.py:18-30 | over the whole table, n lies between the number of distinct devices and the number of rows, and 0 <= time <= 300 s × (n - devices) |
| ParticleFlux.EmptyTable | CREDO/CREDO_functions.py:18-31 | an empty table leaves all three accumulators at 0 and the quotient undefined |
| ParticleFlux.OneDetectionPerDevice | CREDO/CREDO_functions.py:26-31 | when every device has exactly one row, n is the number of rows, time is 0 and the quotient is undefined |
| ParticleFlux.AccumulateRemove | CREDO/CREDO_functions.py:29-30 | removing one device from the visiting order subtracts exactly its own contribution |
| ParticleFlux.AccumulateReorder | CREDO/CREDO_functions.py:21-30 | the totals are plain sums: visiting the same devices in any order gives the same totals |
| ParticleFlux.SameDevicesPermutation | CREDO/CREDO_functions.py:21 | two repetition-free device lists with the same members are permutations of each other |
| ParticleFlux.AccumulatePointwise | CREDO/CREDO_functions.py:29-30 | devices that each add the same count and time give the same count and time totals |
| ParticleFlux.AccumulateSame | CREDO/CREDO_functions.py:23-30 | devices that each add the same area, count and time give the same totals |
| ParticleFlux.AggregateIgnoresRowOrder | CREDO/CREDO_functions.py:21-30 | reordering the table's rows changes neither n nor time; when each device reports one geometry on all its rows, the area total does not change either |
| ParticleFlux.ExampleOneSession | CREDO/CREDO_functions.py:22-31 | detections at 0, 10 and 20 s add 3 to n and 20 s to time; with area 100 the flux is 3 / (100 × 10^-10 × 20) = 1.5 × 10^7 |
| ParticleFlux.ExampleTable | CREDO/CREDO_functions.py:17-31 | three out-of-order rows of one 10 x 10 device at 20, 0 and 10 s give totals (3, 100, 20 s) and flux 1.5 × 10^7 |
| ParticleFlux.ExampleSessionBreak | CREDO/CREDO_functions.py:26-30 | detections at 0, 400 and 410 s: the 400 s gap is a break, so the device adds 2 to n and 10 s to time |

## Left out

- `read_data` (CREDO/CREDO_functions.py:6-15 and CREDO_functions.py:4-9) is not modelled. It does file I/O, JSON parsing, column dropping and renaming, and a time-zone conversion.
- The plotting imports (CREDO/CREDO_functions.py:3-4) are presentation only.
- Floating point is not modelled. The model has no `float(...)` casts, no rounding of `10**(-10)`, and no float sums or division. Areas and times are exact integers, and the quotient is an exact real.
- Timestamps are taken as instants with whole-millisecond resolution. The gap conversion through `pd.to_timedelta(...).dt.total_seconds()` is modelled as an exact difference in milliseconds. Neither loader in the repository hands `particle_flux` such a column:
  - The loader beside it (CREDO/CREDO_functions.py:14) renames the columns to Polish labels, so `particle_flux` on its output would fail with a KeyError on `device_id`.
  - The other loader (CREDO_functions.py:4-9) keeps `timestamp` as raw epoch-millisecond integers. `pd.to_timedelta` would read those differences as nanoseconds, shrinking every gap by 10^6. The 300 s filter would then keep gaps of up to 3 × 10^11 ms.
  - These behaviours are read from the code, not observed, and are not modelled.
- Missing values are not modelled. Every row here has a device, a height and a width. In the source, `unique()` keeps a missing device identifier, but comparing with it selects no rows, so reading its first row's height (CREDO/CREDO_functions.py:23) raises IndexError. A missing height or width becomes NaN.
- Height and width are non-negative integers. Fractional sensor dimensions are not modelled.
- The two failure behaviours are collapsed into one `None` result: ZeroDivisionError for an empty table, and an infinite or NaN quotient for a zero float denominator.
- ParticleFlux.DeviceTotals: for a device with no rows it returns zero totals. The source would fail indexing the first row. The loop only visits devices of the table, so this case never arises in `Accumulators` or `Aggregate`.
- Filtering by date, weekday, month, year, user or team, and the ID-to-name mapping, do not appear in the modelled source file and are not part of this model.
